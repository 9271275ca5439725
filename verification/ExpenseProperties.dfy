/** What every registered expense satisfies. */
module ExpenseProperties {
  import opened Sorting
  import opened Sequences
  import opened Text
  import opened Apportionment
  import SnapshotContent
  import opened GroupExpenses

  /** An allocation as a claim: the payer's place comes before every join order. */
  function PortionFor(payer: string): Allocation -> Portion {
    (a: Allocation) => Portion(if a.participantId == payer then 0 else a.joinOrder, a.percentage, a.burden)
  }

  // ---- ranking ----

  lemma RankingOrders(amount: int, payer: string)
    ensures TotalPreorder(Ranking(amount, payer))
  {
    forall l: Allocation, r: Allocation ensures Ranking(amount, payer)(l, r) || Ranking(amount, payer)(r, l) {
    }
    forall l: Allocation, m: Allocation, r: Allocation | Ranking(amount, payer)(l, m) && Ranking(amount, payer)(m, r)
      ensures Ranking(amount, payer)(l, r)
    {
      hide RemainderOf;
    }
  }

  /** Two participants never tie: different join orders, all at least one, and one payer. */
  lemma RankingSeparates(amount: int, payer: string, l: Allocation, r: Allocation)
    requires l.joinOrder >= 1 && r.joinOrder >= 1 && l.joinOrder != r.joinOrder && l.participantId != r.participantId
    requires Precedes(amount, payer, l, r)
    ensures Beats(amount, 100, PortionFor(payer)(l), PortionFor(payer)(r))
  {
  }

  ghost predicate Separated(shares: seq<Allocation>) {
    && DistinctBy(shares, SnapshotContent.PersonOf) && DistinctBy(shares, SnapshotContent.PlaceOf)
    && forall a | a in shares :: a.joinOrder >= 1
  }

  lemma SeparatedRearranged(xs: seq<Allocation>, ys: seq<Allocation>)
    requires Separated(xs) && multiset(xs) == multiset(ys)
    ensures Separated(ys)
  {
    SamePlaces(xs, ys);
    DistinctByRearranged(xs, ys, SnapshotContent.PersonOf);
    DistinctByRearranged(xs, ys, SnapshotContent.PlaceOf);
  }

  lemma StartedSeparated(amount: int, ps: seq<Participant>)
    requires ParticipantsValid(ps)
    ensures Separated(Map(ps, Started(amount)))
  {
    var shares := Map(ps, Started(amount));
    hide ParticipantValid;
    forall i, j | 0 <= i < j < |shares|
      ensures SnapshotContent.PersonOf(shares[i]) != SnapshotContent.PersonOf(shares[j])
      ensures SnapshotContent.PlaceOf(shares[i]) != SnapshotContent.PlaceOf(shares[j])
    {
      assert PersonOf(ps[i]) != PersonOf(ps[j]) && JoinOrderOf(ps[i]) != JoinOrderOf(ps[j]);
    }
    forall a | a in shares ensures a.joinOrder >= 1 {
      var i :| 0 <= i < |shares| && shares[i] == a;
      EveryoneValid(ps, ps[i]);
      assert ParticipantValid(ps[i]) ==> ps[i].joinOrder >= 1 by { JoinsLater(ps[i]); }
    }
  }

  lemma JoinsLater(p: Participant)
    ensures ParticipantValid(p) ==> p.joinOrder >= 1
  {
  }

  lemma RankedShares(amount: int, payer: string, shares: seq<Allocation>) returns (ranked: seq<Allocation>)
    requires Separated(shares) && forall a | a in shares :: a.burden == Floor(amount, 100, a.percentage)
    ensures ranked == Sort(shares, Ranking(amount, payer)) && multiset(ranked) == multiset(shares)
    ensures Ranked(amount, 100, Map(ranked, PortionFor(payer)))
  {
    ranked := Sort(shares, Ranking(amount, payer));
    RankingOrders(amount, payer);
    SortSorts(shares, Ranking(amount, payer));
    SeparatedRearranged(shares, ranked);
    SamePlaces(shares, ranked);
    hide Beats, Precedes, Floor;
    var ps := Map(ranked, PortionFor(payer));
    forall i, j | 0 <= i < j < |ps| ensures Beats(amount, 100, ps[i], ps[j]) {
      assert Ranking(amount, payer)(ranked[i], ranked[j]);
      assert SnapshotContent.PersonOf(ranked[i]) != SnapshotContent.PersonOf(ranked[j]);
      assert SnapshotContent.PlaceOf(ranked[i]) != SnapshotContent.PlaceOf(ranked[j]);
      assert ranked[i] in ranked && ranked[j] in ranked;
      RankingSeparates(amount, payer, ranked[i], ranked[j]);
    }
    forall p | p in ps ensures p.share == Floor(amount, 100, p.weight) {
      var i :| 0 <= i < |ps| && ps[i] == p;
      assert ranked[i] in shares;
    }
  }

  // ---- the burdens ----

  /** The participants of the registration, with their burdens, in join order. */
  ghost predicate Burdened(amount: int, payer: string, allocations: seq<Allocation>) {
    Apportioned(amount, 100, Map(allocations, PortionFor(payer))) && SortedBy(allocations, SnapshotContent.PlacedBefore)
  }

  lemma StartedFacts(amount: int, ps: seq<Participant>)
    ensures Map(Map(ps, Started(amount)), ParticipantOf) == ps
    ensures forall a | a in Map(ps, Started(amount)) :: a.burden == Floor(amount, 100, a.percentage)
  {
  }

  lemma PortionSums(amount: int, payer: string, xs: seq<Allocation>)
    ensures Sum(Map(xs, PortionFor(payer)), ShareOf) == BurdenTotal(xs)
    ensures Sum(Map(xs, PortionFor(payer)), WeightOf) == Sum(xs, SnapshotContent.PercentageOf)
  {
    forall a: Allocation
      ensures ShareOf(PortionFor(payer)(a)) == SnapshotContent.BurdenOf(a)
      ensures WeightOf(PortionFor(payer)(a)) == SnapshotContent.PercentageOf(a)
    {
    }
    SumMap(xs, PortionFor(payer), ShareOf, SnapshotContent.BurdenOf);
    SumMap(xs, PortionFor(payer), WeightOf, SnapshotContent.PercentageOf);
  }

  lemma RaisedPortions(xs: seq<Allocation>, n: nat, payer: string)
    ensures Map(Raised(xs, n), PortionFor(payer)) == Topped(Map(xs, PortionFor(payer)), n)
    ensures Map(Raised(xs, n), ParticipantOf) == Map(xs, ParticipantOf)
  {
  }

  lemma PercentagesStarted(amount: int, ps: seq<Participant>)
    ensures Sum(Map(ps, Started(amount)), SnapshotContent.PercentageOf) == Sum(ps, PercentageOf)
  {
    forall p: Participant ensures SnapshotContent.PercentageOf(Started(amount)(p)) == PercentageOf(p) {
    }
    SumMap(ps, Started(amount), SnapshotContent.PercentageOf, PercentageOf);
  }

  /** The allocator keeps the participants and gives out the amount by largest remainder. */
  lemma AllocationsApportion(amount: int, payer: string, ps: seq<Participant>)
    requires ParticipantsValid(ps) && Sum(ps, PercentageOf) == 100
    ensures Burdened(amount, payer, Allocations(amount, payer, ps))
    ensures multiset(Map(Allocations(amount, payer, ps), ParticipantOf)) == multiset(ps)
    ensures 0 <= amount - BurdenTotal(Map(ps, Started(amount))) <= |ps|
  {
    hide *;
    var shares := Map(ps, Started(amount));
    StartedSeparated(amount, ps);
    StartedFacts(amount, ps);
    PercentagesStarted(amount, ps);
    var ranked, spare := RankedApportion(amount, payer, shares);
    AllocationsAre(amount, payer, ps);
    RaisedSorted(amount, payer, ranked, spare);
    MapPermutation(ranked, shares, ParticipantOf);
  }

  lemma AllocationsAre(amount: int, payer: string, ps: seq<Participant>)
    requires amount >= BurdenTotal(Map(ps, Started(amount)))
    ensures var shares := Map(ps, Started(amount));
            Allocations(amount, payer, ps) ==
            Sort(Raised(Sort(shares, Ranking(amount, payer)), amount - BurdenTotal(shares)),
                 SnapshotContent.PlacedBefore)
  {
  }

  lemma BurdensRearranged(xs: seq<Allocation>, ys: seq<Allocation>)
    requires multiset(xs) == multiset(ys)
    ensures BurdenTotal(xs) == BurdenTotal(ys) && |xs| == |ys|
    ensures Sum(xs, SnapshotContent.PercentageOf) == Sum(ys, SnapshotContent.PercentageOf)
  {
    SamePlaces(xs, ys);
    SumPermutation(xs, ys, SnapshotContent.BurdenOf);
    SumPermutation(xs, ys, SnapshotContent.PercentageOf);
  }

  /** Topping up the ranked shares with what is spare gives out the amount by largest remainder. */
  lemma RankedApportion(amount: int, payer: string, shares: seq<Allocation>)
    returns (ranked: seq<Allocation>, spare: nat)
    requires Separated(shares) && Sum(shares, SnapshotContent.PercentageOf) == 100
    requires forall a | a in shares :: a.burden == Floor(amount, 100, a.percentage)
    ensures ranked == Sort(shares, Ranking(amount, payer)) && multiset(ranked) == multiset(shares)
    ensures spare == amount - BurdenTotal(shares) <= |shares|
    ensures Apportioned(amount, 100, Topped(Map(ranked, PortionFor(payer)), spare))
  {
    hide *;
    ranked := RankedShares(amount, payer, shares);
    BurdensRearranged(ranked, shares);
    PortionSums(amount, payer, ranked);
    var portions := Map(ranked, PortionFor(payer));
    SpareIs(amount, portions);
    SpareHasTakers(amount, 100, portions);
    ToppedApportions(amount, 100, portions);
    spare := Spare(amount, portions);
  }

  lemma RaisedSorted(amount: int, payer: string, ranked: seq<Allocation>, spare: nat)
    requires Apportioned(amount, 100, Topped(Map(ranked, PortionFor(payer)), spare))
    ensures Burdened(amount, payer, Sort(Raised(ranked, spare), SnapshotContent.PlacedBefore))
    ensures multiset(Map(Sort(Raised(ranked, spare), SnapshotContent.PlacedBefore), ParticipantOf)) ==
            multiset(Map(ranked, ParticipantOf))
  {
    hide Apportioned;
    RaisedPortions(ranked, spare, payer);
    var raised := Raised(ranked, spare);
    SortSorts(raised, SnapshotContent.PlacedBefore);
    var sorted := Sort(raised, SnapshotContent.PlacedBefore);
    MapPermutation(sorted, raised, PortionFor(payer));
    MapPermutation(sorted, raised, ParticipantOf);
    ApportionedRearranged(amount, 100, Map(raised, PortionFor(payer)), Map(sorted, PortionFor(payer)));
  }

  // ---- registered expenses ----

  /** The snapshot's view of an expense. */
  function Selectable(e: ExpenseFacts): SnapshotContent.Expense {
    SnapshotContent.Expense(e.id, e.groupId, e.total, e.payerParticipantId, e.allocations)
  }

  lemma RegisteredParts(r: Registration)
    requires Register(r).Ok?
    ensures Registrable(r)
    ensures var e := Register(r).value;
            && e.allocations == Allocations(r.amount, r.payerParticipantId, r.participants) && e.total == r.amount
            && e.payerParticipantId == r.payerParticipantId && e.groupId == r.groupId && e.id == r.id
            && Burdened(e.total, e.payerParticipantId, e.allocations)
            && multiset(Map(e.allocations, ParticipantOf)) == multiset(r.participants)
            && Sum(e.allocations, SnapshotContent.BurdenOf) == r.amount
            && Sum(e.allocations, SnapshotContent.PercentageOf) == 100
  {
    RegisterAccepts(r);
    AllocationsApportion(r.amount, r.payerParticipantId, r.participants);
    var e := Register(r).value;
    hide Allocations, ParticipantsValid, Register, RegistrationCheck;
    PortionSums(r.amount, r.payerParticipantId, e.allocations);
    PercentagesKept(e.allocations, r.participants);
  }

  lemma PercentagesKept(xs: seq<Allocation>, ps: seq<Participant>)
    requires multiset(Map(xs, ParticipantOf)) == multiset(ps)
    ensures Sum(xs, SnapshotContent.PercentageOf) == Sum(ps, PercentageOf) && |xs| == |ps|
  {
    SumPermutation(Map(xs, ParticipantOf), ps, PercentageOf);
    SamePlaces(Map(xs, ParticipantOf), ps);
    forall a: Allocation ensures PercentageOf(ParticipantOf(a)) == SnapshotContent.PercentageOf(a) {
    }
    SumMap(xs, ParticipantOf, PercentageOf, SnapshotContent.PercentageOf);
  }

  /**
   * The burdens of an expense add up to its total. Each is the floor or the ceiling of its percentage quota:
   * less than one yen away, and exact when the quota is whole, so 0% always bears nothing.
   */
  lemma BurdensExact(r: Registration, k: nat)
    requires Register(r).Ok? && k < |Register(r).value.allocations|
    ensures Sum(Register(r).value.allocations, SnapshotContent.BurdenOf) == r.amount
    ensures var a := Register(r).value.allocations[k];
            && -100 < a.burden * 100 - r.amount * a.percentage < 100 && a.burden >= 0
            && (r.amount * a.percentage % 100 == 0 ==> a.burden * 100 == r.amount * a.percentage)
            && (a.percentage == 0 ==> a.burden == 0)
  {
    RegisteredParts(r);
    AllocationValid(r, Register(r).value.allocations[k]);
  }

  lemma AllocationValid(r: Registration, a: Allocation)
    requires Register(r).Ok? && a in Register(r).value.allocations
    ensures SnapshotContent.AllocationValid(a)
    ensures -100 < a.burden * 100 - r.amount * a.percentage < 100
    ensures r.amount * a.percentage % 100 == 0 ==> a.burden * 100 == r.amount * a.percentage
  {
    hide *;
    RegisteredParts(r);
    RegistrableParts(r);
    var e := Register(r).value;
    AllocationOf(e.allocations, r.participants, a);
    BurdenNear(r.amount, r.payerParticipantId, e.allocations, a);
    ValidBurden(r.amount, a);
  }

  /** An allocation belongs to a valid participant of the registration. */
  lemma AllocationOf(xs: seq<Allocation>, ps: seq<Participant>, a: Allocation)
    requires multiset(Map(xs, ParticipantOf)) == multiset(ps) && ParticipantsValid(ps) && a in xs
    ensures ParticipantValid(ParticipantOf(a)) && Nonempty(a.participantId)
  {
    hide ParticipantsValid, ParticipantValid, Nonempty;
    var k :| 0 <= k < |xs| && xs[k] == a;
    assert Map(xs, ParticipantOf)[k] == ParticipantOf(a);
    SamePlaces(Map(xs, ParticipantOf), ps);
    assert ParticipantOf(a) in Map(xs, ParticipantOf);
    EveryoneValid(ps, ParticipantOf(a));
  }

  lemma BurdenNear(amount: int, payer: string, xs: seq<Allocation>, a: Allocation)
    requires Burdened(amount, payer, xs) && Sum(xs, SnapshotContent.PercentageOf) == 100 && a in xs
    ensures -100 < a.burden * 100 - amount * a.percentage < 100
    ensures amount * a.percentage % 100 == 0 ==> a.burden * 100 == amount * a.percentage
  {
    hide Apportioned, Sum;
    var k :| 0 <= k < |xs| && xs[k] == a;
    var ps := Map(xs, PortionFor(payer));
    assert ps[k] == PortionFor(payer)(a) && ps[k] in ps;
    PortionSums(amount, payer, xs);
    FloorOrCeiling(amount, 100, ps, ps[k]);
  }

  lemma ValidBurden(amount: int, a: Allocation)
    requires ParticipantValid(ParticipantOf(a)) && Nonempty(a.participantId) && amount >= 0
    requires -100 < a.burden * 100 - amount * a.percentage < 100
    requires amount * a.percentage % 100 == 0 ==> a.burden * 100 == amount * a.percentage
    ensures SnapshotContent.AllocationValid(a)
  {
    hide Nonempty;
    assert a.percentage >= 0;
    BurdenSign(amount, a.percentage, a.burden);
  }

  lemma BurdenSign(amount: int, percentage: int, burden: int)
    requires amount >= 0 && percentage >= 0 && -100 < burden * 100 - amount * percentage < 100
    requires amount * percentage % 100 == 0 ==> burden * 100 == amount * percentage
    ensures burden >= 0 && (percentage == 0 ==> burden == 0)
  {
    assert amount * percentage >= 0;
  }

  /** Of two participants of equal remainder the payer gets the extra yen first, and otherwise the earlier one. */
  lemma ExtraYenOrder(r: Registration, i: nat, j: nat)
    requires Register(r).Ok? && i < |Register(r).value.allocations| && j < |Register(r).value.allocations|
    ensures var l, h := Register(r).value.allocations[i], Register(r).value.allocations[j];
            l.burden > r.amount * l.percentage / 100 && h.burden == r.amount * h.percentage / 100 ==>
            var x, y := RemainderOf(r.amount, l), RemainderOf(r.amount, h);
            x > y || (x == y && (l.participantId == r.payerParticipantId ||
                                 (h.participantId != r.payerParticipantId && l.joinOrder < h.joinOrder)))
  {
    hide Register;
    RegisteredParts(r);
    var e := Register(r).value;
    AllocationValid(r, e.allocations[i]);
    ExtraYenAmong(r.amount, r.payerParticipantId, e.allocations, i, j);
  }

  lemma ExtraYenAmong(amount: int, payer: string, xs: seq<Allocation>, i: nat, j: nat)
    requires Burdened(amount, payer, xs) && i < |xs| && j < |xs| && xs[i].joinOrder >= 1
    ensures xs[i].burden > amount * xs[i].percentage / 100 && xs[j].burden == amount * xs[j].percentage / 100 ==>
            var x, y := RemainderOf(amount, xs[i]), RemainderOf(amount, xs[j]);
            x > y || (x == y && (xs[i].participantId == payer ||
                                 (xs[j].participantId != payer && xs[i].joinOrder < xs[j].joinOrder)))
  {
    var ps := Map(xs, PortionFor(payer));
    assert ps[i] in ps && ps[j] in ps;
  }

  /** The order in which the participants are listed does not matter. */
  lemma RegisterForgetsOrder(r: Registration, participants: seq<Participant>)
    requires multiset(r.participants) == multiset(participants)
    ensures Register(r.(participants := participants)).Ok? <==> Register(r).Ok?
    ensures Register(r).Ok? ==> Register(r.(participants := participants)) == Register(r)
  {
    var r' := r.(participants := participants);
    RegisterAccepts(r);
    RegisterAccepts(r');
    ParticipantsRearranged(r.participants, participants);
    ParticipantsRearranged(participants, r.participants);
    if Register(r).Ok? {
      RegisteredParts(r);
      RegisteredParts(r');
      hide Registrable, Allocations, RegistrationCheck;
      var xs, ys := Register(r).value.allocations, Register(r').value.allocations;
      assert DistinctBy(r.participants, JoinOrderOf) by { ValidJoinOrders(r); }
      SameParticipants(xs, ys, r.participants);
      SameAllocations(r.amount, r.payerParticipantId, xs, ys);
    }
  }

  lemma ValidJoinOrders(r: Registration)
    requires Registrable(r)
    ensures DistinctBy(r.participants, JoinOrderOf)
  {
  }

  lemma ParticipantsRearranged(xs: seq<Participant>, ys: seq<Participant>)
    requires multiset(xs) == multiset(ys)
    ensures |xs| == |ys| && (forall p :: p in xs <==> p in ys) && Sum(xs, PercentageOf) == Sum(ys, PercentageOf)
    ensures ParticipantsValid(xs) ==> ParticipantsValid(ys)
  {
    SamePlaces(xs, ys);
    SumPermutation(xs, ys, PercentageOf);
    if ParticipantsValid(xs) {
      DistinctByRearranged(xs, ys, PersonOf);
      DistinctByRearranged(xs, ys, JoinOrderOf);
    }
  }

  predicate JoinsBefore(p: Participant, q: Participant) {
    p.joinOrder <= q.joinOrder
  }

  lemma SameParticipants(xs: seq<Allocation>, ys: seq<Allocation>, ps: seq<Participant>)
    requires SortedBy(xs, SnapshotContent.PlacedBefore) && SortedBy(ys, SnapshotContent.PlacedBefore)
    requires multiset(Map(xs, ParticipantOf)) == multiset(ps) == multiset(Map(ys, ParticipantOf))
    requires DistinctBy(ps, JoinOrderOf)
    ensures Map(xs, ParticipantOf) == Map(ys, ParticipantOf) && |xs| == |ys|
  {
    var us, vs := Map(xs, ParticipantOf), Map(ys, ParticipantOf);
    forall i, j | 0 <= i < j < |us| ensures JoinsBefore(us[i], us[j]) {
      assert SnapshotContent.PlacedBefore(xs[i], xs[j]);
    }
    forall i, j | 0 <= i < j < |vs| ensures JoinsBefore(vs[i], vs[j]) {
      assert SnapshotContent.PlacedBefore(ys[i], ys[j]);
    }
    SamePlaces(us, ps);
    DistinctByCounts(ps, JoinOrderOf);
    forall p, q | p in multiset(us) && q in multiset(us) && JoinsBefore(p, q) && JoinsBefore(q, p) ensures p == q {
      assert p in ps && q in ps && JoinOrderOf(p) == JoinOrderOf(q);
    }
    SortedUnique(us, vs, JoinsBefore);
  }

  lemma SameAllocations(amount: int, payer: string, xs: seq<Allocation>, ys: seq<Allocation>)
    requires Burdened(amount, payer, xs) && Burdened(amount, payer, ys)
    requires Map(xs, ParticipantOf) == Map(ys, ParticipantOf) && |xs| == |ys|
    ensures xs == ys
  {
    hide Apportioned;
    var ps, qs := Map(xs, PortionFor(payer)), Map(ys, PortionFor(payer));
    forall k | 0 <= k < |xs| ensures Claim(ps[k]) == Claim(qs[k]) && ParticipantOf(xs[k]) == ParticipantOf(ys[k]) {
      assert Map(xs, ParticipantOf)[k] == Map(ys, ParticipantOf)[k];
    }
    ApportionedUnique(amount, 100, ps, qs);
    forall k | 0 <= k < |xs| ensures xs[k] == ys[k] {
      assert ps[k] == qs[k] && ParticipantOf(xs[k]) == ParticipantOf(ys[k]);
    }
  }

  // ---- registered expenses and the settlement ----

  /** Participants of one group: everyone has one join order, and no two share one. */
  ghost predicate OnRoster(roster: map<string, int>, r: Registration) {
    forall p | p in r.participants :: p.participantId in roster && roster[p.participantId] == p.joinOrder
  }

  ghost predicate Injective(roster: map<string, int>) {
    forall p, q | p in roster && q in roster && roster[p] == roster[q] :: p == q
  }

  lemma RegisteredValid(r: Registration)
    requires Register(r).Ok?
    ensures SnapshotContent.ExpenseValid(r.groupId, Selectable(Register(r).value))
  {
    hide *;
    RegisteredParts(r);
    var e := Register(r).value;
    forall a | a in e.allocations ensures SnapshotContent.AllocationValid(a) {
      AllocationValid(r, a);
    }
    RegistrableParts(r);
    AllocationsDistinct(e.allocations, r.participants);
    PercentagesKept(e.allocations, r.participants);
    PayerPlaced(e.allocations, r.participants, r.payerParticipantId);
    SelectableValid(r.groupId, e);
  }

  lemma RegistrableParts(r: Registration)
    requires Registrable(r)
    ensures Nonempty(r.id) && CanonicalUuid(r.groupId) && r.amount >= 0 && 1 <= |r.participants| <= 4
    ensures ParticipantsValid(r.participants)
    ensures exists p :: p in r.participants && p.participantId == r.payerParticipantId
  {
    hide Nonempty, CanonicalUuid, ParticipantsValid, CalendarDay;
  }

  lemma PayerPlaced(xs: seq<Allocation>, ps: seq<Participant>, payer: string)
    requires multiset(Map(xs, ParticipantOf)) == multiset(ps)
    requires exists p :: p in ps && p.participantId == payer
    ensures exists a :: a in xs && a.participantId == payer
  {
    var p :| p in ps && p.participantId == payer;
    SamePlaces(Map(xs, ParticipantOf), ps);
    hide Map;
    assert p in Map(xs, ParticipantOf);
    var k :| 0 <= k < |xs| && Map(xs, ParticipantOf)[k] == p;
    assert xs[k] in xs && xs[k].participantId == payer;
  }

  lemma SelectableValid(groupId: string, e: ExpenseFacts)
    requires Nonempty(e.id) && e.groupId == groupId && e.total >= 0 && 1 <= |e.allocations| <= 4
    requires forall a | a in e.allocations :: SnapshotContent.AllocationValid(a)
    requires DistinctBy(e.allocations, SnapshotContent.PersonOf) && DistinctBy(e.allocations, SnapshotContent.PlaceOf)
    requires Sum(e.allocations, SnapshotContent.PercentageOf) == 100
    requires Sum(e.allocations, SnapshotContent.BurdenOf) == e.total
    requires exists a :: a in e.allocations && a.participantId == e.payerParticipantId
    ensures SnapshotContent.ExpenseValid(groupId, Selectable(e))
  {
    hide Nonempty, SnapshotContent.AllocationValid, DistinctBy, Sum;
  }

  lemma AllocationsDistinct(xs: seq<Allocation>, ps: seq<Participant>)
    requires multiset(Map(xs, ParticipantOf)) == multiset(ps) && ParticipantsValid(ps)
    ensures DistinctBy(xs, SnapshotContent.PersonOf) && DistinctBy(xs, SnapshotContent.PlaceOf)
  {
    hide ParticipantValid;
    var us := Map(xs, ParticipantOf);
    DistinctByRearranged(ps, us, PersonOf);
    DistinctByRearranged(ps, us, JoinOrderOf);
    forall i, j | 0 <= i < j < |xs|
      ensures SnapshotContent.PersonOf(xs[i]) != SnapshotContent.PersonOf(xs[j])
      ensures SnapshotContent.PlaceOf(xs[i]) != SnapshotContent.PlaceOf(xs[j])
    {
      assert PersonOf(us[i]) != PersonOf(us[j]) && JoinOrderOf(us[i]) != JoinOrderOf(us[j]);
    }
  }

  function Registered(r: Registration): SnapshotContent.Expense
    requires Register(r).Ok?
  {
    Selectable(Register(r).value)
  }

  lemma AllocationOnRoster(roster: map<string, int>, r: Registration, a: Allocation)
    requires Register(r).Ok? && OnRoster(roster, r) && a in Register(r).value.allocations
    ensures a.participantId in roster && roster[a.participantId] == a.joinOrder
  {
    RegisteredParts(r);
    var e := Register(r).value;
    hide Register;
    var k :| 0 <= k < |e.allocations| && e.allocations[k] == a;
    SamePlaces(Map(e.allocations, ParticipantOf), r.participants);
    assert Map(e.allocations, ParticipantOf)[k] == ParticipantOf(a);
    assert ParticipantOf(a) in r.participants;
  }

  /**
   * Any selection of registered expenses of one group, with different identifiers and participants from one roster,
   * passes every check of the settlement snapshot.
   */
  lemma RosterAdmissible(groupId: string, roster: map<string, int>, rs: seq<Registration>,
                         es: seq<SnapshotContent.Expense>)
    requires rs != [] && |es| == |rs| && Injective(roster)
    requires forall k | 0 <= k < |rs| ::
               Register(rs[k]).Ok? && rs[k].groupId == groupId && OnRoster(roster, rs[k]) && es[k] == Registered(rs[k])
    requires forall i, j | 0 <= i < j < |rs| :: rs[i].id != rs[j].id
    ensures SnapshotContent.Admissible(groupId, es)
  {
    hide *;
    forall k | 0 <= k < |rs| ensures SnapshotContent.ExpenseValid(groupId, es[k]) && es[k].expenseId == rs[k].id {
      SelectedValid(rs[k]);
    }
    forall a | a in SnapshotContent.Flat(es)
      ensures a.participantId in roster && roster[a.participantId] == a.joinOrder
    {
      SnapshotContent.FlatHas(es, a);
      var e :| e in es && a in e.allocations;
      var k :| 0 <= k < |es| && es[k] == e;
      SelectedOnRoster(roster, rs[k], a);
    }
    SelectedValid(rs[0]);
    RosterConsistent(roster, SnapshotContent.Flat(es));
    AdmissibleWhen(groupId, es);
  }

  lemma SelectedValid(r: Registration)
    requires Register(r).Ok?
    ensures SnapshotContent.ExpenseValid(r.groupId, Registered(r)) && Registered(r).expenseId == r.id
    ensures CanonicalUuid(r.groupId)
  {
    RegisteredValid(r);
    RegisteredParts(r);
    RegistrableParts(r);
    hide Register, SnapshotContent.ExpenseValid, Burdened, Registrable, CanonicalUuid;
  }

  lemma SelectedOnRoster(roster: map<string, int>, r: Registration, a: Allocation)
    requires Register(r).Ok? && OnRoster(roster, r) && a in Registered(r).allocations
    ensures a.participantId in roster && roster[a.participantId] == a.joinOrder
  {
    hide Register, OnRoster;
    AllocationOnRoster(roster, r, a);
  }

  lemma RosterConsistent(roster: map<string, int>, flat: seq<Allocation>)
    requires Injective(roster)
    requires forall a | a in flat :: a.participantId in roster && roster[a.participantId] == a.joinOrder
    ensures SnapshotContent.Consistent(flat)
  {
  }

  lemma AdmissibleWhen(groupId: string, es: seq<SnapshotContent.Expense>)
    requires CanonicalUuid(groupId) && es != [] && SnapshotContent.Consistent(SnapshotContent.Flat(es))
    requires forall k | 0 <= k < |es| :: SnapshotContent.ExpenseValid(groupId, es[k])
    requires forall i, j | 0 <= i < j < |es| :: es[i].expenseId != es[j].expenseId
    ensures SnapshotContent.Admissible(groupId, es)
  {
    hide CanonicalUuid, SnapshotContent.ExpenseValid, SnapshotContent.Consistent, SnapshotContent.Flat;
  }
}
