/** The in-place calculation of a receipt's adjustments, and that it computes what `Calculate` specifies. */
module ReceiptAdjustmentAllocation {
  import opened Outcomes
  import opened Sorting
  import opened Sequences
  import opened Text
  import opened Apportionment
  import opened ReceiptAdjustments
  import opened AdjustmentProperties

  method CheckItems(items: seq<Item>) returns (check: Check<AdjustmentError>, amounts: seq<int>)
    ensures check == ItemsCheck(items, 0)
    ensures check.Pass? ==> amounts == Weights(items)
  {
    var ids: set<string> := {};
    amounts := [];
    for k := 0 to |items|
      invariant ids == Ids(items[..k]) && amounts == Weights(items)[..k]
      invariant ItemsCheck(items, 0) == ItemsCheck(items, k)
    {
      if !Nonempty(items[k].id) {
        return Fail(ItemReferenceInvalid), amounts;
      }
      if items[k].id in ids {
        return Fail(ItemReferenceDuplicated), amounts;
      }
      ids := ids + {items[k].id};
      if !(SafeInteger(items[k].amount) && items[k].amount >= 0) {
        return Fail(ItemAmountInvalid), amounts;
      }
      amounts := amounts + [items[k].amount];
      assert items[..k + 1] == items[..k] + [items[k]];
    }
    check := Pass;
  }

  /** Where the claim ranked `j`-th stands in the receipt. */
  lemma RankedPlaces(ranked: seq<Portion>, floors: seq<Portion>)
    requires multiset(ranked) == multiset(floors) && forall k | 0 <= k < |floors| :: floors[k].place == k
    ensures forall j | 0 <= j < |ranked| :: 0 <= ranked[j].place < |floors| && ranked[j] == floors[ranked[j].place]
  {
    SamePlaces(ranked, floors);
    forall j | 0 <= j < |ranked| ensures 0 <= ranked[j].place < |floors| && ranked[j] == floors[ranked[j].place] {
      assert ranked[j] in floors;
    }
  }

  /** When every claim holds what the topped ranking says, the array holds the shares. */
  lemma AllocatedShares(amount: nat, ws: seq<int>, ranked: seq<Portion>, spare: nat, yen: seq<int>)
    requires Sum(ws, AsIs) > 0 && |yen| == |ws| == |ranked|
    requires ranked == Sort(Floors(amount, Sum(ws, AsIs), ws), NotAfter(amount, Sum(ws, AsIs)))
    requires multiset(ranked) == multiset(Floors(amount, Sum(ws, AsIs), ws)) && spare == Spare(amount, ranked)
    requires forall j | 0 <= j < |ranked| ::
             0 <= ranked[j].place < |yen| && yen[ranked[j].place] == Topped(ranked, spare)[j].share
    ensures yen == Shares(amount, ws)
  {
    hide Sum, NotAfter, Sort, Spare, Floor, Beats;
    SortedBack(ranked, spare, Floors(amount, Sum(ws, AsIs), ws), yen);
  }

  lemma SortedBack(ranked: seq<Portion>, spare: nat, floors: seq<Portion>, yen: seq<int>)
    requires multiset(ranked) == multiset(floors) && |yen| == |floors| == |ranked|
    requires forall k | 0 <= k < |floors| :: floors[k].place == k
    requires forall j | 0 <= j < |ranked| ::
             0 <= ranked[j].place < |yen| && yen[ranked[j].place] == Topped(ranked, spare)[j].share
    ensures yen == Map(Sort(Topped(ranked, spare), ByPlace), ShareOf)
  {
    var topped := Topped(ranked, spare);
    ToppedClaims(ranked, spare);
    MapPermutation(ranked, floors, Claim);
    BackInPlace(topped, floors);
    var sorted := Sort(topped, ByPlace);
    hide Sort;
    SamePlaces(sorted, topped);
    forall k | 0 <= k < |yen| ensures yen[k] == sorted[k].share {
      assert sorted[k] in sorted;
      var j :| 0 <= j < |topped| && topped[j] == sorted[k];
      assert Claim(sorted[k]) == Claim(floors[k]);
    }
  }

  /** Floors first, then one yen more for the best remainders until nothing is left. */
  method AllocateWhole(amount: nat, ws: seq<int>, total: int, yen: array<int>)
    requires total == Sum(ws, AsIs) > 0 && yen.Length == |ws|
    modifies yen
    ensures yen[..] == Shares(amount, ws)
  {
    var remainders, floorTotal := [], 0;
    for index := 0 to |ws|
      invariant remainders == Floors(amount, total, ws)[..index] && floorTotal == Sum(remainders, ShareOf)
      invariant forall k | 0 <= k < index :: yen[k] == Floors(amount, total, ws)[k].share
    {
      var quotient := amount * ws[index] / total;
      yen[index] := quotient;
      floorTotal := floorTotal + quotient;
      SumAppend(remainders, [Portion(index, ws[index], quotient)], ShareOf);
      assert Sum([Portion(index, ws[index], quotient)], ShareOf) == quotient + Sum<Portion>([], ShareOf);
      remainders := remainders + [Portion(index, ws[index], quotient)];
    }
    assert remainders == Floors(amount, total, ws);
    var remaining := amount - floorTotal;
    ghost var ranking := RankingRanks(amount, ws);
    SumPermutation(ranking, remainders, ShareOf);
    SpareHasTakers(amount, total, ranking);
    RankedPlaces(ranking, remainders);
    remainders := Sort(remainders, NotAfter(amount, total));
    TopUp(amount, total, ws, remainders, remaining, yen);
    AllocatedShares(amount, ws, remainders, remaining, yen[..]);
  }

  lemma OtherPlaces(ranked: seq<Portion>, k: nat)
    requires DistinctBy(ranked, PlaceOf) && k < |ranked|
    ensures forall j | 0 <= j < |ranked| && j != k :: ranked[j].place != ranked[k].place
  {
    forall j | 0 <= j < |ranked| && j != k ensures ranked[j].place != ranked[k].place {
      assert if j < k then PlaceOf(ranked[j]) != PlaceOf(ranked[k]) else PlaceOf(ranked[k]) != PlaceOf(ranked[j]);
    }
  }

  /** Whoever has a remainder has a weight. */
  lemma WeightlessLast(amount: nat, total: int, ws: seq<int>, ranked: seq<Portion>, spare: int)
    requires total > 0 && 0 <= spare <= |ranked|
    requires forall k | 0 <= k < spare :: Remainder(amount, total, ranked[k].weight) > 0
    ensures forall k | 0 <= k < spare :: ranked[k].weight != 0
  {
    assert Remainder(amount, total, 0) == 0;
  }

  method TopUp(amount: nat, total: int, ws: seq<int>, ranked: seq<Portion>, spare: int, yen: array<int>)
    requires total > 0 && yen.Length == |ws| == |ranked| && DistinctBy(ranked, PlaceOf)
    requires spare == Spare(amount, ranked) && 0 <= spare <= |ranked|
    requires forall k | 0 <= k < spare :: Remainder(amount, total, ranked[k].weight) > 0
    requires forall j | 0 <= j < |ranked| ::
               0 <= ranked[j].place < |ws| && ranked[j].weight == ws[ranked[j].place] &&
                 yen[ranked[j].place] == ranked[j].share
    modifies yen
    ensures forall j | 0 <= j < |ranked| :: yen[ranked[j].place] == Topped(ranked, spare)[j].share
  {
    WeightlessLast(amount, total, ws, ranked, spare);
    hide Remainder, DistinctBy, Spare;
    var remaining := spare;
    for k := 0 to |ranked|
      invariant remaining == if k <= spare then spare - k else 0
      invariant forall j | 0 <= j < |ranked| ::
                  yen[ranked[j].place] == if j < k && j < spare then ranked[j].share + 1 else ranked[j].share
    {
      if remaining == 0 {
        break;
      }
      var index := ranked[k].place;
      if ws[index] != 0 {
        OtherPlaces(ranked, k);
        yen[index] := yen[index] + 1;
        remaining := remaining - 1;
      }
    }
    assert remaining == 0;  // the source's last rejection cannot happen
  }

  method Negate(yen: array<int>)
    modifies yen
    ensures yen[..] == Signed(-1, old(yen[..]))
  {
    for index := 0 to yen.Length
      invariant forall k | 0 <= k < index :: yen[k] == -old(yen[k])
      invariant forall k | index <= k < yen.Length :: yen[k] == old(yen[k])
    {
      yen[index] := -yen[index];
    }
  }

  /** Fills the array, all zeros so far, with what one adjustment gives every item. */
  method Allocate(items: seq<Item>, ws: seq<int>, total: int, a: Adjustment, yen: array<int>)
    returns (check: Check<AdjustmentError>)
    requires ItemsCheck(items, 0).Pass? && ws == Weights(items) && total == Sum(ws, AsIs)
    requires yen.Length == |items| && yen[..] == Zeros(|items|)
    modifies yen
    ensures SpreadOf(items, a) == match check case Pass => Ok(yen[..]) case Fail(e) => Err(e)
  {
    hide ItemsCheck, Shares, Nonempty, IndexOf;
    if !SafeInteger(a.amount) || a.amount == 0 {
      return Fail(AdjustmentAmountInvalid);
    }
    var mustBePositive := a.kind == Tax || a.kind == Shipping;
    if (mustBePositive && a.amount < 0) || (!mustBePositive && a.amount > 0) {
      return Fail(AdjustmentSignInvalid);
    }
    match a.target {
      case OneItem(id) =>
        if !Nonempty(id) {
          return Fail(AdjustmentTargetInvalid);
        }
        var index := IndexOf(items, id);
        if index.None? {
          return Fail(AdjustmentItemNotFound);
        }
        yen[index.value] := a.amount;
        assert yen[..] == Zeros(|items|)[index.value := a.amount];
      case WholeReceipt =>
        OriginalTotal(items);
        if total == 0 {
          return Fail(ReceiptAdjustmentBasisZero);
        }
        AllocateWhole(Magnitude(a.amount), ws, total, yen);
        if a.amount < 0 {
          Negate(yen);
        }
        assert yen[..] == Signed(a.amount, Shares(Magnitude(a.amount), ws));
    }
    check := Pass;
  }

  lemma OneMoreSpread(items: seq<Item>, spreads: seq<Spread>, s: Spread, k: nat)
    requires k < |items|
    ensures AdjustedAmount(items, spreads + [s], k) == AdjustedAmount(items, spreads, k) + AddedTo(k)(s)
  {
    SumAppend(spreads, [s], AddedTo(k));
    assert Sum([s], AddedTo(k)) == AddedTo(k)(s) + Sum<Spread>([], AddedTo(k));
  }

  method AddAll(items: seq<Item>, spreads: seq<Spread>, s: Spread, yen: array<int>, adjusted: array<int>)
    requires yen.Length == adjusted.Length == |items| && yen != adjusted && s.amounts == yen[..]
    requires forall k | 0 <= k < |items| :: adjusted[k] == AdjustedAmount(items, spreads, k)
    modifies adjusted
    ensures forall k | 0 <= k < |items| :: adjusted[k] == AdjustedAmount(items, spreads + [s], k)
  {
    for index := 0 to yen.Length
      invariant forall k | 0 <= k < index :: adjusted[k] == AdjustedAmount(items, spreads + [s], k)
      invariant forall k | index <= k < |items| :: adjusted[k] == AdjustedAmount(items, spreads, k)
    {
      OneMoreSpread(items, spreads, s, index);
      adjusted[index] := adjusted[index] + yen[index];
    }
  }

  lemma Unadjusted(items: seq<Item>)
    ensures forall k | 0 <= k < |items| :: AdjustedAmount(items, [], k) == Weights(items)[k]
  {
  }

  method ApplyAll(items: seq<Item>, ws: seq<int>, total: int, adjustments: seq<Adjustment>, adjusted: array<int>)
    returns (r: Result<seq<Spread>, AdjustmentError>)
    requires ItemsCheck(items, 0).Pass? && ws == Weights(items) && total == Sum(ws, AsIs)
    requires adjusted.Length == |items| && adjusted[..] == ws
    modifies adjusted
    ensures r == Spreads(items, adjustments, |adjustments|)
    ensures r.Ok? ==> forall k | 0 <= k < |items| :: adjusted[k] == AdjustedAmount(items, r.value, k)
  {
    hide ItemsCheck, SpreadOf, AdjustedAmount;
    Unadjusted(items);
    var allocations: seq<Spread> := [];
    for n := 0 to |adjustments|
      invariant Spreads(items, adjustments, n) == Ok(allocations)
      invariant forall k | 0 <= k < |items| :: adjusted[k] == AdjustedAmount(items, allocations, k)
    {
      var yen := new int[|items|](_ => 0);
      assert yen[..] == Zeros(|items|);
      var check := Allocate(items, ws, total, adjustments[n], yen);
      if check.Fail? {
        LaterSpreads(items, adjustments, n + 1, |adjustments|);
        return Err(check.error);
      }
      var spread := Spread(adjustments[n].kind, adjustments[n].amount, yen[..]);
      AddAll(items, allocations, spread, yen, adjusted);
      allocations := allocations + [spread];
    }
    r := Ok(allocations);
  }

  /** The earliest rejection decides. */
  lemma {:induction false} LaterSpreads(items: seq<Item>, adjustments: seq<Adjustment>, n: nat, m: nat)
    requires ItemsCheck(items, 0).Pass? && n <= m <= |adjustments| && Spreads(items, adjustments, n).Err?
    ensures Spreads(items, adjustments, m) == Spreads(items, adjustments, n)
  {
    if n < m {
      LaterSpreads(items, adjustments, n, m - 1);
    }
  }

  method CheckRange(adjusted: seq<AdjustedItem>) returns (check: Check<AdjustmentError>)
    ensures check == RangeCheck(adjusted)
  {
    for k := 0 to |adjusted|
      invariant RangeCheck(adjusted) == RangeCheck(adjusted[k..])
    {
      if adjusted[k].adjustedAmount < 0 {
        return Fail(AdjustedAmountNegative);
      }
      if adjusted[k].adjustedAmount > MAX_SAFE {
        return Fail(AdjustedAmountUnsafe);
      }
      assert adjusted[k..][1..] == adjusted[k + 1..];
    }
    check := Pass;
  }

  /** The stateless service of the source computes the specification. */
  method Run(items: seq<Item>, adjustments: seq<Adjustment>) returns (r: Result<Calculation, AdjustmentError>)
    ensures r == Calculate(items, adjustments)
  {
    hide SpreadOf;
    var check, ws := CheckItems(items);
    if check.Fail? {
      return Err(check.error);
    }
    var total, adjusted := 0, new int[|items|];
    for k := 0 to |items|
      invariant total == Sum(ws[..k], AsIs) && forall j | 0 <= j < k :: adjusted[j] == ws[j]
    {
      SumSnoc(ws, k, AsIs);
      total, adjusted[k] := total + ws[k], ws[k];
    }
    assert ws[..|items|] == ws && adjusted[..] == ws;
    var spreads := ApplyAll(items, ws, total, adjustments, adjusted);
    if spreads.Err? {
      return Err(spreads.error);
    }
    var resultItems := seq(|items|, k requires 0 <= k < |items| reads adjusted =>
      AdjustedItem(items[k].id, items[k].amount, adjusted[k]));
    assert resultItems == Adjusted(items, spreads.value);
    var range := CheckRange(resultItems);
    if range.Fail? {
      return Err(range.error);
    }
    r := Ok(Calculation(resultItems, spreads.value));
  }
}
