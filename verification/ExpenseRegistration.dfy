/** The step-by-step registration of an expense, and that it computes what `Register` specifies. */
module ExpenseRegistration {
  import opened Outcomes
  import opened Sorting
  import opened Sequences
  import opened Text
  import SnapshotContent
  import opened GroupExpenses
  import opened ExpenseProperties

  lemma NobodyListed(ps: seq<Participant>)
    ensures People(ps[..0]) == {} && JoinOrders(ps[..0]) == {} && Sum(ps[..0], PercentageOf) == 0
  {
  }

  lemma OneMoreListed(ps: seq<Participant>, k: nat)
    requires k < |ps|
    ensures People(ps[..k + 1]) == People(ps[..k]) + {ps[k].participantId}
    ensures JoinOrders(ps[..k + 1]) == JoinOrders(ps[..k]) + {ps[k].joinOrder}
  {
    assert ps[..k + 1] == ps[..k] + [ps[k]];
  }

  method CheckParticipants(ps: seq<Participant>)
    returns (check: Check<ExpenseError>, ids: set<string>, percentageTotal: int)
    ensures check == ParticipantsCheck(ps, 0)
    ensures check.Pass? ==> ids == People(ps) && percentageTotal == Sum(ps, PercentageOf)
  {
    hide People, JoinOrders, Sum, Nonempty, SafeInteger;
    var joinOrders: set<int> := {};
    ids, percentageTotal := {}, 0;
    NobodyListed(ps);
    for k := 0 to |ps|
      invariant ids == People(ps[..k]) && joinOrders == JoinOrders(ps[..k]) &&
                percentageTotal == Sum(ps[..k], PercentageOf)
      invariant ParticipantsCheck(ps, 0) == ParticipantsCheck(ps, k)
    {
      var p := ps[k];
      if !Nonempty(p.participantId) {
        return Fail(IdentifierEmpty), ids, percentageTotal;
      }
      if p.participantId in ids {
        return Fail(ParticipantDuplicated), ids, percentageTotal;
      }
      ids := ids + {p.participantId};
      if !SafeInteger(p.joinOrder) || p.joinOrder < 1 {
        return Fail(JoinOrderInvalid), ids, percentageTotal;
      }
      if p.joinOrder in joinOrders {
        return Fail(JoinOrderDuplicated), ids, percentageTotal;
      }
      joinOrders := joinOrders + {p.joinOrder};
      if p.percentage < 0 || p.percentage > 100 || p.percentage % 10 != 0 {
        return Fail(PercentageInvalid), ids, percentageTotal;
      }
      percentageTotal := percentageTotal + p.percentage;
      SumSnoc(ps, k, PercentageOf);
      OneMoreListed(ps, k);
    }
    assert ps[..|ps|] == ps;
    check := Pass;
  }

  /** Floors in the given order, ranked, one yen more for the first ones, then back to join order. */
  method Burden(amount: int, payer: string, ps: seq<Participant>) returns (allocations: seq<Allocation>)
    requires 0 <= amount - BurdenTotal(Map(ps, Started(amount))) <= |ps|
    ensures allocations == Allocations(amount, payer, ps)
  {
    var shares, floors := [], 0;
    for k := 0 to |ps|
      invariant shares == Map(ps, Started(amount))[..k] && floors == BurdenTotal(shares)
    {
      var share := SnapshotContent.Allocation(ps[k].participantId, ps[k].joinOrder, ps[k].percentage,
                                              amount * ps[k].percentage / 100);
      SumAppend(shares, [share], SnapshotContent.BurdenOf);
      assert Sum([share], SnapshotContent.BurdenOf) == share.burden + Sum<Allocation>([], SnapshotContent.BurdenOf);
      shares, floors := shares + [share], floors + share.burden;
    }
    assert shares == Map(ps, Started(amount));
    var remaining := amount - floors;
    var ranked := Sort(shares, Ranking(amount, payer));
    RankingOrders(amount, payer);
    SortSorts(shares, Ranking(amount, payer));
    shares := ranked;
    for k := 0 to remaining
      invariant shares == Raised(ranked, k)
    {
      shares := shares[k := shares[k].(burden := shares[k].burden + 1)];
    }
    allocations := Sort(shares, SnapshotContent.PlacedBefore);
  }

  /** Registering an expense: the checks in the source's order, then the burdens. */
  method Run(r: Registration) returns (result: Result<ExpenseFacts, ExpenseError>)
    ensures result == Register(r)
  {
    hide Nonempty, CanonicalUuid, CalendarDay, Allocations, ParticipantsCheck;
    if !Nonempty(r.id) {
      return Err(IdentifierEmpty);
    }
    if !CanonicalUuid(r.groupId) {
      return Err(GroupIdInvalid);
    }
    if !Nonempty(r.sourceOwnerSubject) || !Nonempty(r.payerParticipantId) {
      return Err(IdentifierEmpty);
    }
    if !CalendarDay(r.occurredOn) {
      return Err(OccurredOnInvalid);
    }
    if !SafeInteger(r.amount) || r.amount < 0 {
      return Err(AmountInvalid);
    }
    if |r.participants| < 1 || |r.participants| > 4 {
      return Err(ParticipantCountInvalid);
    }
    var check, ids, percentageTotal := CheckParticipants(r.participants);
    if check.Fail? {
      return Err(check.error);
    }
    if percentageTotal != 100 {
      return Err(PercentageTotalInvalid);
    }
    if r.payerParticipantId !in ids {
      return Err(PayerNotParticipant);
    }
    SpareYen(r);
    var allocations := Burden(r.amount, r.payerParticipantId, r.participants);
    result := Ok(ExpenseFacts(r.id, r.groupId, r.sourceOwnerSubject, r.occurredOn, r.amount, r.payerParticipantId,
                              allocations));
  }

  /** There are at least zero and at most as many yen left over as participants. */
  lemma SpareYen(r: Registration)
    requires Register(r).Ok?
    ensures 0 <= r.amount - BurdenTotal(Map(r.participants, Started(r.amount))) <= |r.participants|
  {
    RegisterAccepts(r);
    hide Register, Allocations;
    AllocationsApportion(r.amount, r.payerParticipantId, r.participants);
  }
}
