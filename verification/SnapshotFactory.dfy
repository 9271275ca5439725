/** The aggregation loops of the content factory. */
module SnapshotFactory {
  import opened Outcomes
  import opened Sequences
  import opened Text
  import opened Transfers
  import opened TransferSearch
  import opened SnapshotContent

  datatype Accumulated = Accumulated(joinOrder: int, amount: int)

  function Places(flat: seq<Allocation>): set<int> {
    set a | a in flat :: a.joinOrder
  }

  ghost predicate Placed(flat: seq<Allocation>, participants: map<string, Accumulated>, byOrder: map<int, string>) {
    && participants.Keys == Persons(flat) && byOrder.Keys == Places(flat)
    && forall a | a in flat ::
         participants[a.participantId].joinOrder == a.joinOrder && byOrder[a.joinOrder] == a.participantId
  }

  ghost predicate Weighed(flat: seq<Allocation>, es: seq<Expense>, participants: map<string, Accumulated>) {
    forall id | id in participants ::
      participants[id].amount == Sum(es, PaidBy(id)) - Sum(flat, BurdenBy(id))
  }

  lemma OneMore(flat: seq<Allocation>, a: Allocation)
    ensures Persons(flat + [a]) == Persons(flat) + {a.participantId}
    ensures Places(flat + [a]) == Places(flat) + {a.joinOrder}
    ensures Sharers(flat + [a]) == Sharers(flat) + (if a.percentage > 0 then {a.participantId} else {})
  {
    assert forall x :: x in flat + [a] <==> x in flat || x == a;
  }

  /** An allocation that agrees with what is placed can be placed. */
  lemma PlaceOne(flat: seq<Allocation>, ps: map<string, Accumulated>, byOrder: map<int, string>,
                 a: Allocation, ps': map<string, Accumulated>)
    requires Placed(flat, ps, byOrder)
    requires a.participantId in ps ==> ps[a.participantId].joinOrder == a.joinOrder
    requires a.joinOrder in byOrder ==> byOrder[a.joinOrder] == a.participantId
    requires ps'.Keys == ps.Keys + {a.participantId} && ps'[a.participantId].joinOrder == a.joinOrder
    requires forall id | id in ps && id != a.participantId :: ps'[id] == ps[id]
    ensures Placed(flat + [a], ps', byOrder[a.joinOrder := a.participantId])
  {
    hide *;
    OneMore(flat, a);
    PlacedKeys(flat, ps, byOrder);
    var byOrder' := byOrder[a.joinOrder := a.participantId];
    forall x | x in flat + [a]
      ensures x.participantId in ps' && ps'[x.participantId].joinOrder == x.joinOrder
      ensures x.joinOrder in byOrder' && byOrder'[x.joinOrder] == x.participantId
    {
      if x in flat {
        PlacedEach(flat, ps, byOrder, x);
      } else {
        assert x == a;
      }
    }
    PlacedWhen(flat + [a], ps', byOrder');
  }

  lemma PlacedKeys(flat: seq<Allocation>, ps: map<string, Accumulated>, byOrder: map<int, string>)
    requires Placed(flat, ps, byOrder)
    ensures ps.Keys == Persons(flat) && byOrder.Keys == Places(flat)
  {
    hide Persons, Places;
  }

  lemma PlacedEach(flat: seq<Allocation>, ps: map<string, Accumulated>, byOrder: map<int, string>, x: Allocation)
    requires Placed(flat, ps, byOrder) && x in flat
    ensures x.participantId in ps && ps[x.participantId].joinOrder == x.joinOrder
    ensures x.joinOrder in byOrder && byOrder[x.joinOrder] == x.participantId
  {
    assert x.participantId in Persons(flat) && x.joinOrder in Places(flat);
  }

  lemma PlacedWhen(flat: seq<Allocation>, ps: map<string, Accumulated>, byOrder: map<int, string>)
    requires ps.Keys == Persons(flat) && byOrder.Keys == Places(flat)
    requires forall x | x in flat ::
               && x.participantId in ps && ps[x.participantId].joinOrder == x.joinOrder
               && x.joinOrder in byOrder && byOrder[x.joinOrder] == x.participantId
    ensures Placed(flat, ps, byOrder)
  {
    hide Persons, Places;
  }

  lemma WeighOne(flat: seq<Allocation>, es: seq<Expense>, ps: map<string, Accumulated>,
                 a: Allocation, ps': map<string, Accumulated>)
    requires Weighed(flat, es, ps) && ps.Keys == Persons(flat) && Payers(es) <= ps.Keys
    requires ps'.Keys == ps.Keys + {a.participantId}
    requires ps'[a.participantId].amount
             == (if a.participantId in ps then ps[a.participantId].amount else 0) - a.burden
    requires forall id | id in ps && id != a.participantId :: ps'[id] == ps[id]
    ensures Weighed(flat + [a], es, ps')
  {
    forall id | id in ps' ensures ps'[id].amount == Sum(es, PaidBy(id)) - Sum(flat + [a], BurdenBy(id)) {
      KeyedSnoc(flat, a, PersonOf, BurdenOf, id);
      if id !in ps {
        KeyedAbsent(flat, PersonOf, BurdenOf, id);
        forall e | e in es ensures PayerOf(e) != id {
          assert e.payerParticipantId in Payers(es);
        }
        KeyedAbsent(es, PayerOf, ExpenseAmountOf, id);
      }
    }
  }

  lemma WeighPayment(flat: seq<Allocation>, es: seq<Expense>, ps: map<string, Accumulated>, e: Expense)
    requires Weighed(flat, es, ps) && e.payerParticipantId in ps
    ensures Weighed(flat, es + [e], Credited(ps, e))
  {
    forall id | id in ps
      ensures Sum(es + [e], PaidBy(id)) == Sum(es, PaidBy(id)) + (if PayerOf(e) == id then ExpenseAmountOf(e) else 0)
    {
      KeyedSnoc(es, e, PayerOf, ExpenseAmountOf, id);
    }
  }

  /** The four accumulators hold exactly the allocations `flat` and the payments of `es`. */
  ghost predicate Accumulates(names: seq<string>, participants: map<string, Accumulated>, byOrder: map<int, string>,
                              approvers: set<string>, flat: seq<Allocation>, es: seq<Expense>)
  {
    && DistinctBy(names, Itself) && (forall id :: id in names <==> id in participants)
    && Placed(flat, participants, byOrder)
    && Weighed(flat, es, participants)
    && approvers == Sharers(flat) + Payers(es)
    && Payers(es) <= participants.Keys
  }

  predicate Agreeing(a: Allocation, participants: map<string, Accumulated>, byOrder: map<int, string>) {
    && (a.participantId in participants ==> participants[a.participantId].joinOrder == a.joinOrder)
    && (a.joinOrder in byOrder ==> byOrder[a.joinOrder] == a.participantId)
  }

  function Bearing(participants: map<string, Accumulated>, a: Allocation): Accumulated {
    var p := if a.participantId in participants then participants[a.participantId] else Accumulated(a.joinOrder, 0);
    p.(amount := p.amount - a.burden)
  }

  lemma AllocateKeeps(names: seq<string>, ps: map<string, Accumulated>, byOrder: map<int, string>,
                      approvers: set<string>, flat: seq<Allocation>, es: seq<Expense>, a: Allocation,
                      names': seq<string>, ps': map<string, Accumulated>, approvers': set<string>)
    requires Accumulates(names, ps, byOrder, approvers, flat, es) && Agreeing(a, ps, byOrder)
    requires names' == if a.participantId in ps then names else names + [a.participantId]
    requires ps' == ps[a.participantId := Bearing(ps, a)]
    requires approvers' == if a.percentage > 0 then approvers + {a.participantId} else approvers
    ensures Accumulates(names', ps', byOrder[a.joinOrder := a.participantId], approvers', flat + [a], es)
  {
    hide *;
    AccumulatesIs(names, ps, byOrder, approvers, flat, es);
    PlacedKeys(flat, ps, byOrder);
    AgreeingIs(a, ps, byOrder);
    BearingIs(ps, a);
    assert ps'.Keys == ps.Keys + {a.participantId};
    NameOne(names, ps, a, ps');
    PlaceOne(flat, ps, byOrder, a, ps');
    WeighOne(flat, es, ps, a, ps');
    ShareOne(approvers, flat, es, a);
    AccumulatesIs(names', ps', byOrder[a.joinOrder := a.participantId], approvers', flat + [a], es);
  }

  lemma AccumulatesIs(names: seq<string>, ps: map<string, Accumulated>, byOrder: map<int, string>,
                      approvers: set<string>, flat: seq<Allocation>, es: seq<Expense>)
    ensures Accumulates(names, ps, byOrder, approvers, flat, es) <==>
            DistinctBy(names, Itself) && (forall id :: id in names <==> id in ps) && Placed(flat, ps, byOrder) &&
            Weighed(flat, es, ps) && approvers == Sharers(flat) + Payers(es) && Payers(es) <= ps.Keys
  {
    hide DistinctBy, Placed, Weighed, Sharers, Payers;
  }

  lemma AgreeingIs(a: Allocation, ps: map<string, Accumulated>, byOrder: map<int, string>)
    requires Agreeing(a, ps, byOrder)
    ensures a.participantId in ps ==> ps[a.participantId].joinOrder == a.joinOrder
    ensures a.joinOrder in byOrder ==> byOrder[a.joinOrder] == a.participantId
  {
  }

  lemma BearingIs(ps: map<string, Accumulated>, a: Allocation)
    ensures a.participantId in ps ==> Bearing(ps, a).joinOrder == ps[a.participantId].joinOrder
    ensures a.participantId !in ps ==> Bearing(ps, a).joinOrder == a.joinOrder
    ensures Bearing(ps, a).amount == (if a.participantId in ps then ps[a.participantId].amount else 0) - a.burden
  {
  }

  lemma ShareOne(approvers: set<string>, flat: seq<Allocation>, es: seq<Expense>, a: Allocation)
    requires approvers == Sharers(flat) + Payers(es)
    ensures (if a.percentage > 0 then approvers + {a.participantId} else approvers) == Sharers(flat + [a]) + Payers(es)
  {
    OneMore(flat, a);
  }

  lemma NameOne(names: seq<string>, ps: map<string, Accumulated>, a: Allocation, ps': map<string, Accumulated>)
    requires DistinctBy(names, Itself) && (forall id :: id in names <==> id in ps)
    requires ps'.Keys == ps.Keys + {a.participantId}
    ensures var names' := if a.participantId in ps then names else names + [a.participantId];
            DistinctBy(names', Itself) && (forall id :: id in names' <==> id in ps')
  {
    DistinctSnoc(names, a.participantId, Itself);
    assert forall id :: id in ps' <==> id in ps || id == a.participantId;
  }

  function Credited(ps: map<string, Accumulated>, e: Expense): map<string, Accumulated>
    requires e.payerParticipantId in ps
  {
    ps[e.payerParticipantId := ps[e.payerParticipantId].(amount := ps[e.payerParticipantId].amount + e.amount)]
  }

  lemma CreditKeeps(names: seq<string>, ps: map<string, Accumulated>, byOrder: map<int, string>,
                    approvers: set<string>, flat: seq<Allocation>, es: seq<Expense>, e: Expense)
    requires Accumulates(names, ps, byOrder, approvers, flat, es) && e.payerParticipantId in ps
    ensures Accumulates(names, Credited(ps, e), byOrder, approvers + {e.payerParticipantId}, flat, es + [e])
  {
    hide DistinctBy, Sharers, Payers, Sum;
    assert Weighed(flat, es, ps) && Placed(flat, ps, byOrder);
    WeighPayment(flat, es, ps, e);
    hide Weighed;
    PayersGrow(es, e);
    assert Credited(ps, e).Keys == ps.Keys;
    PlacedStays(flat, ps, byOrder, Credited(ps, e));
  }

  lemma PayersGrow(es: seq<Expense>, e: Expense)
    ensures Payers(es + [e]) == Payers(es) + {e.payerParticipantId}
  {
    assert forall x :: x in es + [e] <==> x in es || x == e;
  }

  lemma PlacedStays(flat: seq<Allocation>, ps: map<string, Accumulated>, byOrder: map<int, string>,
                    ps': map<string, Accumulated>)
    requires Placed(flat, ps, byOrder) && ps'.Keys == ps.Keys && forall id | id in ps ::
             ps'[id].joinOrder == ps[id].joinOrder
    ensures Placed(flat, ps', byOrder)
  {
    forall x | x in flat ensures ps'[x.participantId].joinOrder == x.joinOrder {
      assert x.participantId in Persons(flat);
    }
  }

  lemma DisagreementIsConflict(ps: map<string, Accumulated>, byOrder: map<int, string>, flat: seq<Allocation>,
                               a: Allocation)
    requires Placed(flat, ps, byOrder) && !Agreeing(a, ps, byOrder)
    ensures exists a' :: a' in flat && (a'.participantId == a.participantId) != (a'.joinOrder == a.joinOrder)
  {
    if a.participantId in ps && ps[a.participantId].joinOrder != a.joinOrder {
      var a' :| a' in flat && a'.participantId == a.participantId;
    } else {
      var a' :| a' in flat && a'.joinOrder == a.joinOrder;
    }
  }

  lemma PlacedIsConsistent(ps: map<string, Accumulated>, byOrder: map<int, string>, flat: seq<Allocation>)
    requires Placed(flat, ps, byOrder)
    ensures Consistent(flat)
  {
  }

  /** The shared accumulators of one factory call. `names` is the insertion order of `participants`. */
  class Aggregation {
    var names: seq<string>
    var participants: map<string, Accumulated>
    var participantByOrder: map<int, string>
    var approvers: set<string>

    ghost predicate Holds(flat: seq<Allocation>, es: seq<Expense>)
      reads this
    {
      Accumulates(names, participants, participantByOrder, approvers, flat, es)
    }

    constructor ()
      ensures Holds([], [])
    {
      names, participants, participantByOrder, approvers := [], map[], map[], {};
    }

    method Allocate(a: Allocation, ghost flat: seq<Allocation>, ghost es: seq<Expense>)
      requires Holds(flat, es) && Agreeing(a, participants, participantByOrder)
      modifies this
      ensures Holds(flat + [a], es)
    {
      hide Accumulates, Agreeing;
      var id := a.participantId;
      var participant := if id in participants then participants[id] else Accumulated(a.joinOrder, 0);
      participant := participant.(amount := participant.amount - a.burden);
      var names' := if id in participants then names else names + [id];
      var approvers' := if a.percentage > 0 then approvers + {id} else approvers;
      AllocateKeeps(names, participants, participantByOrder, approvers, flat, es, a,
                    names', participants[id := participant], approvers');
      names, approvers := names', approvers';
      participants := participants[id := participant];
      participantByOrder := participantByOrder[a.joinOrder := id];
    }

    method Credit(e: Expense, ghost flat: seq<Allocation>, ghost es: seq<Expense>)
      requires Holds(flat, es) && e.payerParticipantId in participants
      modifies this
      ensures Holds(flat, es + [e])
    {
      hide Accumulates;
      CreditKeeps(names, participants, participantByOrder, approvers, flat, es, e);
      var id := e.payerParticipantId;
      participants := participants[id := participants[id].(amount := participants[id].amount + e.amount)];
      approvers := approvers + {id};
    }
  }

  lemma MemberAt(xs: seq<Allocation>, j: nat)
    requires j < |xs|
    ensures xs[j] in xs && forall x | x in xs[..j] :: x in xs
  {
  }

  lemma ConflictIn(agg: Aggregation, flat: seq<Allocation>, es: seq<Expense>, all: seq<Allocation>, a: Allocation)
    requires agg.Holds(flat, es) && !Agreeing(a, agg.participants, agg.participantByOrder)
    requires a in all && forall x | x in flat :: x in all
    ensures !Consistent(all)
  {
    var ps, byOrder := agg.participants, agg.participantByOrder;
    DisagreementIsConflict(ps, byOrder, flat, a);
    var a' :| a' in flat && (a'.participantId == a.participantId) != (a'.joinOrder == a.joinOrder);
    assert a' in all;
  }

  lemma RepeatAt<K>(xs: seq<Allocation>, j: nat, key: Allocation -> K)
    requires j < |xs|
    ensures DistinctBy(xs[..j + 1], key) <==>
            DistinctBy(xs[..j], key) && forall x | x in xs[..j] :: key(x) != key(xs[j])
    ensures !DistinctBy(xs[..j + 1], key) ==> !DistinctBy(xs, key)
  {
    assert xs[..j + 1] == xs[..j] + [xs[j]];
    DistinctSnoc(xs[..j], xs[j], key);
  }

  /** The first of the allocation's own checks that it fails, in the source's order. */
  function AllocationRejection(a: Allocation, ids: set<string>, orders: set<int>): Option<SnapshotError> {
    if !Nonempty(a.participantId) then Some(ParticipantIdEmpty)
    else if !(1 <= a.joinOrder <= MAX_SAFE) then Some(JoinOrderInvalid)
    else if a.participantId in ids then Some(ExpenseParticipantDuplicated)
    else if a.joinOrder in orders then Some(ExpenseOrderDuplicated)
    else None
  }

  function ShareRejection(a: Allocation): Option<SnapshotError> {
    if !PercentageValid(a) then Some(AllocationPercentageInvalid)
    else if a.burden < 0 then Some(AllocationBurdenInvalid)
    else if a.percentage == 0 && a.burden != 0 then Some(ZeroShareBurdenInvalid)
    else None
  }

  lemma AllocationRejected(groupId: string, e: Expense, j: nat, ids: set<string>, orders: set<int>)
    requires j < |e.allocations| && ids == Persons(e.allocations[..j]) && orders == Places(e.allocations[..j])
    ensures var r := AllocationRejection(e.allocations[j], ids, orders);
            r.Some? ==> ExpenseViolates(r.value, groupId, e)
  {
    hide Nonempty;
    MemberAt(e.allocations, j);
    Repeated(e.allocations, j);
    hide DistinctBy;
  }

  lemma Repeated(xs: seq<Allocation>, j: nat)
    requires j < |xs|
    ensures xs[j].participantId in Persons(xs[..j]) ==> !DistinctBy(xs, PersonOf)
    ensures xs[j].joinOrder in Places(xs[..j]) ==> !DistinctBy(xs, PlaceOf)
  {
    RepeatAt(xs, j, PersonOf);
    RepeatAt(xs, j, PlaceOf);
    hide DistinctBy;
    assert xs[j].participantId in Persons(xs[..j]) ==> exists x :: x in xs[..j] && PersonOf(x) == PersonOf(xs[j]);
    assert xs[j].joinOrder in Places(xs[..j]) ==> exists x :: x in xs[..j] && PlaceOf(x) == PlaceOf(xs[j]);
  }

  lemma ShareRejected(groupId: string, e: Expense, j: nat)
    requires j < |e.allocations|
    ensures var r := ShareRejection(e.allocations[j]);
            r.Some? ==> ExpenseViolates(r.value, groupId, e)
  {
    hide DistinctBy, Nonempty;
    MemberAt(e.allocations, j);
  }

  lemma AllocationAccepted(e: Expense, j: nat, ids: set<string>, orders: set<int>)
    requires j < |e.allocations| && ids == Persons(e.allocations[..j]) && orders == Places(e.allocations[..j])
    requires AllocationRejection(e.allocations[j], ids, orders).None? && ShareRejection(e.allocations[j]).None?
    requires DistinctBy(e.allocations[..j], PersonOf) && DistinctBy(e.allocations[..j], PlaceOf)
    ensures AllocationValid(e.allocations[j])
    ensures DistinctBy(e.allocations[..j + 1], PersonOf) && DistinctBy(e.allocations[..j + 1], PlaceOf)
  {
    forall x | x in e.allocations[..j]
      ensures PersonOf(x) != PersonOf(e.allocations[j]) && PlaceOf(x) != PlaceOf(e.allocations[j])
    {
      assert x.participantId in Persons(e.allocations[..j]) && x.joinOrder in Places(e.allocations[..j]);
    }
    RepeatAt(e.allocations, j, PersonOf);
    RepeatAt(e.allocations, j, PlaceOf);
  }

  /** The allocations are valid one by one, with no participant and no join order twice. */
  ghost predicate Accepted(allocations: seq<Allocation>) {
    && (forall a | a in allocations :: AllocationValid(a))
    && DistinctBy(allocations, PersonOf) && DistinctBy(allocations, PlaceOf)
  }

  lemma AcceptOne(e: Expense, j: nat, ids: set<string>, orders: set<int>)
    requires j < |e.allocations| && ids == Persons(e.allocations[..j]) && orders == Places(e.allocations[..j])
    requires AllocationRejection(e.allocations[j], ids, orders).None? && ShareRejection(e.allocations[j]).None?
    requires Accepted(e.allocations[..j])
    ensures Accepted(e.allocations[..j + 1])
    ensures Persons(e.allocations[..j + 1]) == ids + {e.allocations[j].participantId}
    ensures Places(e.allocations[..j + 1]) == orders + {e.allocations[j].joinOrder}
  {
    AllocationAccepted(e, j, ids, orders);
    OneMore(e.allocations[..j], e.allocations[j]);
    assert e.allocations[..j + 1] == e.allocations[..j] + [e.allocations[j]];
  }

  lemma NothingAccepted()
    ensures Accepted([]) && Persons([]) == {} && Places([]) == {}
    ensures Sum<Allocation>([], PercentageOf) == 0 == Sum<Allocation>([], BurdenOf)
  {
  }

  /** One turn of the inner loop. */
  method AddAllocation(agg: Aggregation, groupId: string, e: Expense, j: nat, ids: set<string>, orders: set<int>,
                       ghost flat: seq<Allocation>, ghost es: seq<Expense>)
    returns (rejected: Option<SnapshotError>)
    requires j < |e.allocations| && ids == Persons(e.allocations[..j]) && orders == Places(e.allocations[..j])
    requires agg.Holds(flat + e.allocations[..j], es)
    modifies agg
    ensures rejected.None? ==> agg.Holds(flat + e.allocations[..j + 1], es)
    ensures rejected.None? ==> AllocationRejection(e.allocations[j], ids, orders).None?
                               && ShareRejection(e.allocations[j]).None?
    ensures rejected.Some? ==> ExpenseViolates(rejected.value, groupId, e) ||
                               (rejected.value == ParticipantOrderConflict && !Consistent(flat + e.allocations))
  {
    hide Accumulates, AllocationRejection, ShareRejection, Sum, DistinctBy;
    var a := e.allocations[j];
    AllocationRejected(groupId, e, j, ids, orders);
    ShareRejected(groupId, e, j);
    rejected := AllocationRejection(a, ids, orders);
    if rejected.Some? {
      return;
    }
    if !Agreeing(a, agg.participants, agg.participantByOrder) {
      ConflictIn(agg, flat + e.allocations[..j], es, flat + e.allocations, a);
      return Some(ParticipantOrderConflict);
    }
    rejected := ShareRejection(a);
    if rejected.Some? {
      return;
    }
    agg.Allocate(a, flat + e.allocations[..j], es);
    assert (flat + e.allocations[..j]) + [a] == flat + e.allocations[..j + 1];
  }

  /** The inner loop over one expense's allocations. */
  method AddAllocations(agg: Aggregation, groupId: string, e: Expense, ghost flat: seq<Allocation>,
                        ghost es: seq<Expense>)
    returns (rejected: Option<SnapshotError>, percentageTotal: int, burdenTotal: int)
    requires agg.Holds(flat, es)
    modifies agg
    ensures rejected.None? ==> agg.Holds(flat + e.allocations, es) && Accepted(e.allocations)
    ensures rejected.None? ==> percentageTotal == Sum(e.allocations, PercentageOf)
    ensures rejected.None? ==> burdenTotal == Sum(e.allocations, BurdenOf)
    ensures rejected.Some? ==> ExpenseViolates(rejected.value, groupId, e) ||
                               (rejected.value == ParticipantOrderConflict && !Consistent(flat + e.allocations))
  {
    hide Accumulates, Accepted, AllocationRejection, ShareRejection, Sum, Consistent, ExpenseViolates;
    var ids: set<string> := {};
    var orders: set<int> := {};
    percentageTotal, burdenTotal := 0, 0;
    var j := 0;
    assert e.allocations[..0] == [] && flat + [] == flat;
    NothingAccepted();
    while j < |e.allocations|
      invariant 0 <= j <= |e.allocations|
      invariant agg.Holds(flat + e.allocations[..j], es)
      invariant ids == Persons(e.allocations[..j]) && orders == Places(e.allocations[..j])
      invariant percentageTotal == Sum(e.allocations[..j], PercentageOf)
      invariant burdenTotal == Sum(e.allocations[..j], BurdenOf)
      invariant Accepted(e.allocations[..j])
    {
      rejected := AddAllocation(agg, groupId, e, j, ids, orders, flat, es);
      if rejected.Some? {
        return;
      }
      AcceptOne(e, j, ids, orders);
      SumSnoc(e.allocations, j, PercentageOf);
      SumSnoc(e.allocations, j, BurdenOf);
      percentageTotal := percentageTotal + PercentageOf(e.allocations[j]);
      burdenTotal := burdenTotal + BurdenOf(e.allocations[j]);
      ids := ids + {e.allocations[j].participantId};
      orders := orders + {e.allocations[j].joinOrder};
      j := j + 1;
    }
    assert e.allocations[..j] == e.allocations;
    return None, percentageTotal, burdenTotal;
  }

  lemma PayerPlaced(agg: Aggregation, flat: seq<Allocation>, e: Expense, es: seq<Expense>)
    requires agg.Holds(flat + e.allocations, es) && e.payerParticipantId in Persons(e.allocations)
    ensures e.payerParticipantId in agg.participants
    ensures exists a :: a in e.allocations && a.participantId == e.payerParticipantId
  {
    var a :| a in e.allocations && a.participantId == e.payerParticipantId;
    assert a in flat + e.allocations;
  }

  /** One turn of the outer loop, after the check that the expense is new. */
  method AddExpense(agg: Aggregation, groupId: string, e: Expense, ghost flat: seq<Allocation>, ghost es: seq<Expense>)
    returns (rejected: Option<SnapshotError>)
    requires agg.Holds(flat, es) && Nonempty(e.expenseId)
    modifies agg
    ensures rejected.None? ==> ExpenseValid(groupId, e) && agg.Holds(flat + e.allocations, es + [e])
    ensures rejected.Some? ==> ExpenseViolates(rejected.value, groupId, e) ||
                               (rejected.value == ParticipantOrderConflict && !Consistent(flat + e.allocations))
  {
    hide Accumulates, Sum, DistinctBy, AllocationValid, Nonempty;
    var percentageTotal, burdenTotal;
    if e.groupId != groupId {
      return Some(ExpenseGroupMismatch);
    }
    if e.amount < 0 {
      return Some(ExpenseAmountInvalid);
    }
    if !(1 <= |e.allocations| <= 4) {
      return Some(AllocationCountInvalid);
    }
    rejected, percentageTotal, burdenTotal := AddAllocations(agg, groupId, e, flat, es);
    if rejected.Some? {
      return;
    }
    if percentageTotal != 100 {
      return Some(PercentageTotalInvalid);
    }
    if burdenTotal != e.amount {
      return Some(BurdenTotalInvalid);
    }
    if e.payerParticipantId !in Persons(e.allocations) {
      return Some(PayerNotParticipant);
    }
    PayerPlaced(agg, flat, e, es);
    agg.Credit(e, flat + e.allocations, es);
    return None;
  }

  // ---- the result of the loops ----

  function BalanceAt(names: seq<string>, participants: map<string, Accumulated>, i: nat): Balance
    requires i < |names| && forall id | id in names :: id in participants
  {
    Balance(names[i], participants[names[i]].joinOrder, participants[names[i]].amount)
  }

  /** The accumulators as balances, in insertion order. */
  function Entries(names: seq<string>, participants: map<string, Accumulated>): (r: seq<Balance>)
    requires forall id | id in names :: id in participants
    ensures |r| == |names| && forall i | 0 <= i < |r| :: r[i] == BalanceAt(names, participants, i)
  {
    seq(|names|, i requires 0 <= i < |names| => BalanceAt(names, participants, i))
  }

  lemma EntryPerson(names: seq<string>, ps: map<string, Accumulated>, byOrder: map<int, string>,
                    flat: seq<Allocation>, i: nat) returns (a: Allocation)
    requires (forall id :: id in names <==> id in ps) && Placed(flat, ps, byOrder) && i < |names|
    ensures a in flat && a.participantId == names[i] && a.joinOrder == ps[names[i]].joinOrder
    ensures byOrder[ps[names[i]].joinOrder] == names[i]
  {
    assert names[i] in ps && names[i] in Persons(flat);
    a :| a in flat && a.participantId == names[i];
  }

  lemma EntriesUnique(names: seq<string>, ps: map<string, Accumulated>, byOrder: map<int, string>,
                      flat: seq<Allocation>)
    requires DistinctBy(names, Itself) && (forall id :: id in names <==> id in ps) && Placed(flat, ps, byOrder)
    ensures Unique(Entries(names, ps))
  {
    var r := Entries(names, ps);
    forall i, j | 0 <= i < j < |r| ensures IdOf(r[i]) != IdOf(r[j]) && OrderOf(r[i]) != OrderOf(r[j]) {
      assert Itself(names[i]) != Itself(names[j]);
      var _ := EntryPerson(names, ps, byOrder, flat, i);
      var _ := EntryPerson(names, ps, byOrder, flat, j);
    }
  }

  lemma EntryIsBalance(names: seq<string>, ps: map<string, Accumulated>, byOrder: map<int, string>,
                       approvers: set<string>, es: seq<Expense>, i: nat)
    requires Accumulates(names, ps, byOrder, approvers, Flat(es), es) && i < |names|
    ensures IsBalance(Entries(names, ps)[i], es)
  {
    hide Placed, Payers, Sharers, Sum, Flat, DistinctBy;
    var a := EntryPerson(names, ps, byOrder, Flat(es), i);
    assert names[i] in ps;
  }

  lemma BalanceIsEntry(names: seq<string>, ps: map<string, Accumulated>, byOrder: map<int, string>,
                       approvers: set<string>, es: seq<Expense>, x: Balance)
    requires Accumulates(names, ps, byOrder, approvers, Flat(es), es) && IsBalance(x, es)
    ensures x in Entries(names, ps)
  {
    hide Payers, Sharers, Sum, Flat, DistinctBy;
    var a :| a in Flat(es) && a.participantId == x.participantId && a.joinOrder == x.joinOrder;
    assert x.participantId in Persons(Flat(es));
    assert x.participantId in names;
    var i :| 0 <= i < |names| && names[i] == x.participantId;
    assert Entries(names, ps)[i] == x;
  }

  /** The accumulated entries are exactly the balances of the expenses. */
  lemma EntriesAreBalances(names: seq<string>, ps: map<string, Accumulated>, byOrder: map<int, string>,
                           approvers: set<string>, es: seq<Expense>, x: Balance)
    requires Accumulates(names, ps, byOrder, approvers, Flat(es), es)
    ensures x in Entries(names, ps) <==> IsBalance(x, es)
  {
    var r := Entries(names, ps);
    if x in r {
      var i :| 0 <= i < |r| && r[i] == x;
      EntryIsBalance(names, ps, byOrder, approvers, es, i);
    }
    if IsBalance(x, es) {
      BalanceIsEntry(names, ps, byOrder, approvers, es, x);
    }
  }

  /** Everything paid is borne: the balances of accepted expenses add up to zero. */
  lemma BalancesTotalZero(groupId: string, es: seq<Expense>, bs: seq<Balance>)
    requires Admissible(groupId, es) && DistinctBy(bs, IdOf)
    requires forall x: Balance :: x in bs <==> IsBalance(x, es)
    ensures Sum(bs, AmountOf) == 0
  {
    forall a | a in Flat(es) ensures exists b :: b in bs && IdOf(b) == PersonOf(a) {
      assert IsBalance(Balance(a.participantId, a.joinOrder,
                               Sum(es, PaidBy(a.participantId)) - Sum(Flat(es), BurdenBy(a.participantId))), es);
    }
    forall e | e in es ensures exists b :: b in bs && IdOf(b) == PayerOf(e) {
      assert ExpenseValid(groupId, e);
      var a :| a in e.allocations && a.participantId == e.payerParticipantId;
      FlatHas(es, a);
      assert exists b :: b in bs && IdOf(b) == PersonOf(a);
    }
    HoldersShareAll(bs, IdOf, es, PayerOf, ExpenseAmountOf);
    HoldersShareAll(bs, IdOf, Flat(es), PersonOf, BurdenOf);
    var paid := KeyedSum(es, PayerOf, ExpenseAmountOf, IdOf);
    var borne := KeyedSum(Flat(es), PersonOf, BurdenOf, IdOf);
    forall b | b in bs ensures AmountOf(b) == paid(b) + -1 * borne(b) {
      assert IsBalance(b, es);
    }
    SumPlus(bs, paid, borne, AmountOf, -1);
    AmountsAreBurdens(groupId, es);
  }

  lemma {:induction false} AmountsAreBurdens(groupId: string, es: seq<Expense>)
    requires forall e | e in es :: ExpenseValid(groupId, e)
    ensures Sum(es, ExpenseAmountOf) == Sum(Flat(es), BurdenOf)
  {
    if es != [] {
      AmountsAreBurdens(groupId, es[1..]);
      SumAppend(es[0].allocations, Flat(es[1..]), BurdenOf);
      assert ExpenseValid(groupId, es[0]);
    }
  }

  /** Balances of the accepted expenses, however they were listed, make a genuine content. */
  lemma ContentIsGenuine(groupId: string, es: seq<Expense>, bs: seq<Balance>, c: Content)
    requires Admissible(groupId, es) && Unique(bs) && forall x: Balance :: x in bs <==> IsBalance(x, es)
    requires c.groupId == groupId && c.expenses == Canonical(es) && c.balances == InJoinOrder(bs)
    requires Total(Amounts(InJoinOrder(c.balances))) == 0 && c.candidates == Instructions(c.balances)
    requires c.requiredApproverIds == Map(Filter(c.balances, MustApprove(Approving(es))), IdOf)
    ensures Genuine(c)
  {
    CanonicalAdmissible(groupId, es);
    CanonicalShape(es);
    UniqueSorted(bs);
    SamePlaces(bs, c.balances);
    CanonicalApprovers(es);
    forall x: Balance ensures x in c.balances <==> IsBalance(x, c.expenses) {
      CanonicalBalances(es, x);
    }
  }

  lemma ResortedTotal(bs: seq<Balance>)
    requires Unique(bs) && Sum(bs, AmountOf) == 0
    ensures Unique(InJoinOrder(bs)) && Total(Amounts(InJoinOrder(bs))) == 0
  {
    UniqueSorted(bs);
    OrderedTotal(bs);
    TotalIsSum(bs);
  }

  lemma ViolationStays(error: SnapshotError, groupId: string, es: seq<Expense>, k: nat)
    requires k < |es|
    requires ExpenseViolates(error, groupId, es[k]) ||
             (error == ParticipantOrderConflict && !Consistent(Flat(es[..k]) + es[k].allocations))
    ensures Violates(error, groupId, es)
  {
    if error == ParticipantOrderConflict {
      FlatSnoc(es, k);
      assert es == es[..k + 1] + es[k + 1..];
      FlatAppend(es[..k + 1], es[k + 1..]);
      assert forall a | a in Flat(es[..k + 1]) :: a in Flat(es);
    } else {
      assert es[k] in es;
    }
  }

  lemma InvalidWhenViolating(error: SnapshotError, groupId: string, e: Expense)
    requires ExpenseViolates(error, groupId, e)
    ensures !ExpenseValid(groupId, e)
  {
  }

  /** A violated selection is not admissible, whichever rejection reports it. */
  lemma ViolationIsInadmissible(error: SnapshotError, groupId: string, es: seq<Expense>)
    requires Violates(error, groupId, es)
    ensures !Admissible(groupId, es)
  {
    if e :| e in es && ExpenseViolates(error, groupId, e) {
      InvalidWhenViolating(error, groupId, e);
    }
  }

  lemma ExpenseRepeatAt(es: seq<Expense>, k: nat)
    requires k < |es|
    ensures DistinctBy(es[..k + 1], ExpenseIdOf) <==>
            DistinctBy(es[..k], ExpenseIdOf) && es[k].expenseId !in set e | e in es[..k] :: e.expenseId
    ensures !DistinctBy(es[..k + 1], ExpenseIdOf) ==> !DistinctBy(es, ExpenseIdOf)
    ensures (set e | e in es[..k + 1] :: e.expenseId) == (set e | e in es[..k] :: e.expenseId) + {es[k].expenseId}
  {
    assert es[..k + 1] == es[..k] + [es[k]];
    DistinctSnoc(es[..k], es[k], ExpenseIdOf);
    assert (forall e | e in es[..k] :: ExpenseIdOf(e) != ExpenseIdOf(es[k])) <==>
           es[k].expenseId !in set e | e in es[..k] :: e.expenseId;
    assert forall e :: e in es[..k + 1] <==> e in es[..k] || e == es[k];
  }

  /** The expenses taken so far are valid, distinct and accumulated. */
  ghost predicate Taken(agg: Aggregation, groupId: string, es: seq<Expense>, expenseIds: set<string>)
    reads agg
  {
    && agg.Holds(Flat(es), es) && (forall e | e in es :: ExpenseValid(groupId, e))
    && DistinctBy(es, ExpenseIdOf) && expenseIds == set e | e in es :: e.expenseId
  }

  /** One turn of the outer loop. */
  method TakeExpense(agg: Aggregation, groupId: string, es: seq<Expense>, k: nat, expenseIds: set<string>)
    returns (rejected: Option<SnapshotError>)
    requires k < |es| && Taken(agg, groupId, es[..k], expenseIds)
    modifies agg
    ensures rejected.None? ==> Taken(agg, groupId, es[..k + 1], expenseIds + {es[k].expenseId})
    ensures rejected.Some? ==> Violates(rejected.value, groupId, es)
  {
    hide Accumulates, ExpenseValid, DistinctBy, Nonempty;
    var e := es[k];
    ExpenseRepeatAt(es, k);
    if !Nonempty(e.expenseId) {
      ViolationStays(ExpenseReferenceEmpty, groupId, es, k);
      return Some(ExpenseReferenceEmpty);
    }
    if e.expenseId in expenseIds {
      return Some(ExpenseDuplicated);
    }
    rejected := AddExpense(agg, groupId, e, Flat(es[..k]), es[..k]);
    if rejected.Some? {
      ViolationStays(rejected.value, groupId, es, k);
      return;
    }
    FlatSnoc(es, k);
    assert es[..k + 1] == es[..k] + [e];
  }

  /** The loops accept exactly the admissible selections and end with accumulators that hold all of them. */
  method Aggregate(groupId: string, expenses: seq<Expense>) returns (r: Result<Aggregation, SnapshotError>)
    ensures r.Ok? <==> Admissible(groupId, expenses)
    ensures r.Ok? ==> r.value.Holds(Flat(expenses), expenses)
    ensures r.Err? ==> Violates(r.error, groupId, expenses)
  {
    if !CanonicalUuid(groupId) {
      return Err(GroupReferenceInvalid);
    }
    if expenses == [] {
      return Err(SelectionEmpty);
    }
    var agg := new Aggregation();
    var expenseIds: set<string> := {};
    var k := 0;
    assert expenses[..0] == [];
    while k < |expenses|
      invariant 0 <= k <= |expenses|
      invariant fresh(agg)
      invariant Taken(agg, groupId, expenses[..k], expenseIds)
    {
      hide Taken, ExpenseValid, DistinctBy, Consistent;
      var rejected := TakeExpense(agg, groupId, expenses, k, expenseIds);
      if rejected.Some? {
        ViolationIsInadmissible(rejected.value, groupId, expenses);
        return Err(rejected.value);
      }
      expenseIds := expenseIds + {expenses[k].expenseId};
      k := k + 1;
    }
    assert expenses[..k] == expenses;
    PlacedIsConsistent(agg.participants, agg.participantByOrder, Flat(expenses));
    return Ok(agg);
  }

  /**
   * The factory accepts exactly the admissible selections, names a real violation when it rejects, and hands
   * out the genuine content of the canonical selection.
   */
  method From(groupId: string, expenses: seq<Expense>) returns (r: Result<Content, SnapshotError>)
    ensures r.Ok? <==> Admissible(groupId, expenses)
    ensures r.Err? ==> Violates(r.error, groupId, expenses)
    ensures r.Ok? ==> Genuine(r.value) && r.value.groupId == groupId && r.value.expenses == Canonical(expenses)
  {
    var aggregated := Aggregate(groupId, expenses);
    if aggregated.Err? {
      return Err(aggregated.error);
    }
    var agg := aggregated.value;
    var entries := Entries(agg.names, agg.participants);
    EntriesUnique(agg.names, agg.participants, agg.participantByOrder, Flat(expenses));
    forall x: Balance ensures x in entries <==> IsBalance(x, expenses) {
      EntriesAreBalances(agg.names, agg.participants, agg.participantByOrder, agg.approvers, expenses, x);
    }
    BalancesTotalZero(groupId, expenses, entries);
    ResortedTotal(entries);
    var balances := InJoinOrder(entries);
    UniqueSorted(entries);
    ResortedTotal(balances) by {
      SumPermutation(balances, entries, AmountOf);
    }
    OrderedTotal(balances);
    var derived := DerivePaymentInstructionCandidates(balances);
    assert derived.Ok?;
    var content := Content(groupId, Canonical(expenses), balances, derived.value,
                           Map(Filter(balances, MustApprove(agg.approvers)), IdOf));
    assert agg.approvers == Approving(expenses);
    ContentIsGenuine(groupId, expenses, entries, content);
    return Ok(content);
  }
}
