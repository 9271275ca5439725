/** Which selections a settlement content is made from, and what the content lists, said of the lists themselves. */
module SnapshotOutcomes {
  import opened Sorting
  import opened Sequences
  import opened Text
  import opened TextRules
  import opened Transfers
  import opened TransferSearch
  import opened SnapshotContent
  import SP = SnapshotProperties

  // ---- which selections are accepted ----

  function Share(a: Allocation): int { a.percentage }
  function Burden(a: Allocation): int { a.burden }

  ghost predicate AllocationFine(a: Allocation) {
    && Written(a.participantId) && 1 <= a.joinOrder <= MAX_SAFE && 0 <= a.percentage <= 100 && a.percentage % 10 == 0
    && 0 <= a.burden && (a.percentage == 0 ==> a.burden == 0)
  }

  /** One to four allocations of different participants, which give out the whole amount; the payer is among them. */
  ghost predicate ExpenseFine(groupId: string, e: Expense) {
    && Written(e.expenseId) && e.groupId == groupId && 0 <= e.amount && 1 <= |e.allocations| <= 4
    && (forall a | a in e.allocations :: AllocationFine(a))
    && (forall i, j | 0 <= i < j < |e.allocations| ::
          && e.allocations[i].participantId != e.allocations[j].participantId
          && e.allocations[i].joinOrder != e.allocations[j].joinOrder)
    && Sum(e.allocations, Share) == 100 && Sum(e.allocations, Burden) == e.amount
    && exists a :: a in e.allocations && a.participantId == e.payerParticipantId
  }

  /** Different expenses of the group, in which a participant always has the same join order and nobody else has it. */
  ghost predicate Selectable(groupId: string, es: seq<Expense>) {
    && LowerUuid(groupId) && |es| >= 1 && (forall e | e in es :: ExpenseFine(groupId, e))
    && (forall i, j | 0 <= i < j < |es| :: es[i].expenseId != es[j].expenseId)
    && forall e, f, a, b | e in es && f in es && a in e.allocations && b in f.allocations ::
         a.participantId == b.participantId <==> a.joinOrder == b.joinOrder
  }

  lemma AllocationIs(a: Allocation)
    ensures AllocationValid(a) <==> AllocationFine(a)
  {
    WrittenIs(a.participantId);
    hide Nonempty, Written;
  }

  lemma DistinctIs(xs: seq<Allocation>)
    ensures DistinctBy(xs, PersonOf) && DistinctBy(xs, PlaceOf) <==>
            forall i, j | 0 <= i < j < |xs| ::
              xs[i].participantId != xs[j].participantId && xs[i].joinOrder != xs[j].joinOrder
  {
    if DistinctBy(xs, PersonOf) && DistinctBy(xs, PlaceOf) {
      forall i, j | 0 <= i < j < |xs|
        ensures xs[i].participantId != xs[j].participantId && xs[i].joinOrder != xs[j].joinOrder
      {
        assert PersonOf(xs[i]) != PersonOf(xs[j]) && PlaceOf(xs[i]) != PlaceOf(xs[j]);
      }
    }
  }

  lemma ExpenseIs(groupId: string, e: Expense)
    ensures ExpenseValid(groupId, e) <==> ExpenseFine(groupId, e)
  {
    WrittenIs(e.expenseId);
    DistinctIs(e.allocations);
    SumsAlike(e.allocations, e.allocations, PercentageOf, Share);
    SumsAlike(e.allocations, e.allocations, BurdenOf, Burden);
    forall a: Allocation ensures AllocationValid(a) <==> AllocationFine(a) {
      AllocationIs(a);
    }
    hide AllocationValid, AllocationFine, Nonempty, Written, DistinctBy, Sum;
  }

  lemma ConsistentIs(es: seq<Expense>)
    ensures Consistent(Flat(es)) <==>
            forall e, f, a, b | e in es && f in es && a in e.allocations && b in f.allocations ::
              a.participantId == b.participantId <==> a.joinOrder == b.joinOrder
  {
    hide Flat;
    forall a ensures a in Flat(es) <==> exists e :: e in es && a in e.allocations {
      FlatHas(es, a);
    }
  }

  /** The selections the factory accepts. */
  lemma SelectionExact(groupId: string, es: seq<Expense>)
    ensures Admissible(groupId, es) <==> Selectable(groupId, es)
  {
    LowerUuidIs(groupId);
    ConsistentIs(es);
    forall e: Expense ensures ExpenseValid(groupId, e) <==> ExpenseFine(groupId, e) {
      ExpenseIs(groupId, e);
    }
    IdsDiffer(es);
    hide CanonicalUuid, LowerUuid, ExpenseValid, ExpenseFine, Consistent, Flat, DistinctBy;
  }

  lemma IdsDiffer(es: seq<Expense>)
    ensures DistinctBy(es, ExpenseIdOf) <==> forall i, j | 0 <= i < j < |es| :: es[i].expenseId != es[j].expenseId
  {
    if DistinctBy(es, ExpenseIdOf) {
      forall i, j | 0 <= i < j < |es| ensures es[i].expenseId != es[j].expenseId {
        assert ExpenseIdOf(es[i]) != ExpenseIdOf(es[j]);
      }
    }
  }

  // ---- what the content lists ----

  /** The same expense, its allocations listed by join order. */
  ghost predicate Lists(e': Expense, e: Expense) {
    && e' == e.(allocations := e'.allocations) && multiset(e'.allocations) == multiset(e.allocations)
    && forall i, j | 0 <= i < j < |e'.allocations| :: e'.allocations[i].joinOrder < e'.allocations[j].joinOrder
  }

  /** By identifier in the order of UTF-16 code units, without a repetition. */
  ghost predicate ById(es: seq<Expense>) {
    forall i, j | 0 <= i < j < |es| ::
      UnitsLe(UnitsOf(es[i].expenseId), UnitsOf(es[j].expenseId)) && es[i].expenseId != es[j].expenseId
  }

  /** Every selected expense is listed once. */
  ghost predicate ListsAll(listed: seq<Expense>, es: seq<Expense>) {
    && |listed| == |es| && ById(listed)
    && (forall e | e in es :: exists e' :: e' in listed && Lists(e', e))
    && forall e' | e' in listed :: exists e :: e in es && Lists(e', e)
  }

  function Paid(id: string): Expense -> int {
    (e: Expense) => if e.payerParticipantId == id then e.amount else 0
  }

  function BorneOf(id: string): Allocation -> int {
    (a: Allocation) => if a.participantId == id then a.burden else 0
  }

  /** What a participant bears of an expense. */
  function Borne(id: string): Expense -> int {
    (e: Expense) => Sum(e.allocations, BorneOf(id))
  }

  ghost predicate TakesPart(es: seq<Expense>, id: string, order: int) {
    exists e, a :: e in es && a in e.allocations && a.participantId == id && a.joinOrder == order
  }

  ghost predicate ByJoinOrder(bs: seq<Balance>) {
    forall i, j | 0 <= i < j < |bs| ::
      bs[i].joinOrder < bs[j].joinOrder && bs[i].participantId != bs[j].participantId
  }

  ghost predicate Holds(bs: seq<Balance>, id: string, order: int) {
    exists b :: b in bs && b.participantId == id && b.joinOrder == order
  }

  /** What the participant paid less what they bear. */
  ghost predicate BalanceOf(b: Balance, es: seq<Expense>) {
    b.amount == Sum(es, Paid(b.participantId)) - Sum(es, Borne(b.participantId))
  }

  /** Everyone who takes part, and nobody else, is listed once, by join order, with their balance. */
  ghost predicate BalancesFrom(bs: seq<Balance>, es: seq<Expense>) {
    && ByJoinOrder(bs)
    && (forall e, a | e in es && a in e.allocations :: Holds(bs, a.participantId, a.joinOrder))
    && forall b | b in bs :: TakesPart(es, b.participantId, b.joinOrder) && BalanceOf(b, es)
  }

  /** Paying an expense or bearing a positive share of one makes a participant an approver. */
  ghost predicate Approves(es: seq<Expense>, id: string) {
    || (exists e :: e in es && e.payerParticipantId == id)
    || (exists e, a :: e in es && a in e.allocations && a.participantId == id && a.percentage > 0)
  }

  /** The approvers are the approving participants in the order of the balances. */
  ghost predicate ApproversFrom(ids: seq<string>, bs: seq<Balance>, es: seq<Expense>) {
    && (forall id :: id in ids <==> Approves(es, id))
    && forall i, j | 0 <= i < j < |ids| :: Precedes(bs, ids[i], ids[j])
  }

  ghost predicate Precedes(bs: seq<Balance>, id: string, other: string) {
    exists m, n :: 0 <= m < n < |bs| && bs[m].participantId == id && bs[n].participantId == other
  }

  lemma FixedLists(groupId: string, e: Expense)
    requires ExpenseValid(groupId, e)
    ensures Lists(Fixed(e), e)
  {
    SortSorts(e.allocations, PlacedBefore);
    var xs := Fixed(e).allocations;
    DistinctByRearranged(e.allocations, xs, PlaceOf);
    hide ExpenseValid;
    forall i, j | 0 <= i < j < |xs| ensures xs[i].joinOrder < xs[j].joinOrder {
      assert PlaceOf(xs[i]) != PlaceOf(xs[j]) && PlacedBefore(xs[i], xs[j]);
    }
  }

  lemma CanonicalLists(groupId: string, es: seq<Expense>)
    requires Admissible(groupId, es)
    ensures ListsAll(Canonical(es), es)
  {
    hide *;
    CanonicalShape(es);
    CanonicalAdmissible(groupId, es);
    AdmissibleParts(groupId, es);
    AdmissibleParts(groupId, Canonical(es));
    forall e | e in es ensures Fixed(e) in Canonical(es) && Lists(Fixed(e), e) {
      FixedLists(groupId, e);
    }
    SameCount(Canonical(es), Map(es, Fixed));
    IdsAscend(Canonical(es));
    ListsAllWhen(Canonical(es), es);
  }

  lemma SameCount<T>(xs: seq<T>, ys: seq<T>)
    requires multiset(xs) == multiset(ys)
    ensures |xs| == |ys|
  {
    assert |multiset(xs)| == |xs| && |multiset(ys)| == |ys|;
  }

  lemma ListsAllWhen(listed: seq<Expense>, es: seq<Expense>)
    requires |listed| == |es| && (forall e | e in es :: Fixed(e) in listed && Lists(Fixed(e), e))
    requires forall e' | e' in listed :: exists e :: e in es && e' == Fixed(e)
    requires ById(listed)
    ensures ListsAll(listed, es)
  {
    hide Lists, Fixed, ById;
  }

  lemma AdmissibleParts(groupId: string, es: seq<Expense>)
    requires Admissible(groupId, es)
    ensures DistinctBy(es, ExpenseIdOf) && forall e | e in es :: ExpenseValid(groupId, e)
  {
    hide ExpenseValid, DistinctBy;
  }

  lemma IdsAscend(es: seq<Expense>)
    requires SortedBy(es, ByExpenseId) && DistinctBy(es, ExpenseIdOf)
    ensures ById(es)
  {
    IdsDiffer(es);
    hide UnitsLe, UnitsOf, StringLe;
    forall i, j | 0 <= i < j < |es| ensures UnitsLe(UnitsOf(es[i].expenseId), UnitsOf(es[j].expenseId)) {
      assert ByExpenseId(es[i], es[j]);
      StringOrder(es[i].expenseId, es[j].expenseId);
    }
  }

  lemma {:induction false} BorneIs(es: seq<Expense>, id: string)
    ensures Sum(Flat(es), BurdenBy(id)) == Sum(es, Borne(id))
  {
    if es != [] {
      BorneIs(es[1..], id);
      SumAppend(es[0].allocations, Flat(es[1..]), BurdenBy(id));
      BorneOfOne(es[0].allocations, id);
      hide BurdenBy, BorneOf;
    }
  }

  lemma BorneOfOne(xs: seq<Allocation>, id: string)
    ensures Sum(xs, BurdenBy(id)) == Sum(xs, BorneOf(id))
  {
    forall i | 0 <= i < |xs| ensures BurdenBy(id)(xs[i]) == BorneOf(id)(xs[i]) {
      assert PersonOf(xs[i]) == xs[i].participantId && BurdenOf(xs[i]) == xs[i].burden;
    }
    SumsAlike(xs, xs, BurdenBy(id), BorneOf(id));
  }

  lemma PaidIs(es: seq<Expense>, id: string)
    ensures Sum(es, PaidBy(id)) == Sum(es, Paid(id))
  {
    forall i | 0 <= i < |es| ensures PaidBy(id)(es[i]) == Paid(id)(es[i]) {
      assert PayerOf(es[i]) == es[i].payerParticipantId && ExpenseAmountOf(es[i]) == es[i].amount;
    }
    SumsAlike(es, es, PaidBy(id), Paid(id));
  }

  lemma BalanceIs(x: Balance, es: seq<Expense>)
    ensures IsBalance(x, es) <==>
            TakesPart(es, x.participantId, x.joinOrder) &&
            BalanceOf(x, es)
  {
    BorneIs(es, x.participantId);
    PaidIs(es, x.participantId);
    hide Flat, Paid, Borne, PaidBy, BurdenBy, Sum;
    forall a ensures a in Flat(es) <==> exists e :: e in es && a in e.allocations {
      FlatHas(es, a);
    }
  }

  lemma BalancesAscend(bs: seq<Balance>)
    requires SortedBy(bs, JoinedBefore) && Unique(bs)
    ensures ByJoinOrder(bs)
  {
    forall i, j | 0 <= i < j < |bs|
      ensures bs[i].joinOrder < bs[j].joinOrder && bs[i].participantId != bs[j].participantId
    {
      assert JoinedBefore(bs[i], bs[j]) && OrderOf(bs[i]) != OrderOf(bs[j]) && IdOf(bs[i]) != IdOf(bs[j]);
    }
  }

  lemma PartHolds(bs: seq<Balance>, es: seq<Expense>, e: Expense, a: Allocation)
    requires (forall x: Balance :: x in bs <==> IsBalance(x, es)) && e in es && a in e.allocations
    ensures Holds(bs, a.participantId, a.joinOrder)
  {
    var x := Balance(a.participantId, a.joinOrder, Sum(es, Paid(a.participantId)) - Sum(es, Borne(a.participantId)));
    BalanceIs(x, es);
    hide IsBalance, Sum;
    assert x in bs;
  }

  lemma BalancesListed(bs: seq<Balance>, es: seq<Expense>)
    requires SortedBy(bs, JoinedBefore) && Unique(bs) && forall x: Balance :: x in bs <==> IsBalance(x, es)
    ensures BalancesFrom(bs, es)
  {
    BalancesAscend(bs);
    hide SortedBy, Unique, ByJoinOrder, IsBalance, Holds, TakesPart, BalanceOf;
    forall e, a | e in es && a in e.allocations ensures Holds(bs, a.participantId, a.joinOrder) {
      PartHolds(bs, es, e, a);
    }
    forall b | b in bs ensures TakesPart(es, b.participantId, b.joinOrder) && BalanceOf(b, es) {
      BalanceIs(b, es);
    }
  }

  lemma ApprovingIs(es: seq<Expense>, id: string)
    ensures id in Approving(es) <==> Approves(es, id)
  {
    hide Flat;
    forall a ensures a in Flat(es) <==> exists e :: e in es && a in e.allocations {
      FlatHas(es, a);
    }
  }

  /** The two elements stand in this order in the list. */
  ghost predicate InOrder<T>(xs: seq<T>, x: T, y: T) {
    exists m, n :: 0 <= m < n < |xs| && xs[m] == x && xs[n] == y
  }

  lemma InOrderBehind<T>(xs: seq<T>, x: T, y: T)
    requires xs != []
    ensures InOrder(xs[1..], x, y) ==> InOrder(xs, x, y)
    ensures x == xs[0] && y in xs[1..] ==> InOrder(xs, x, y)
  {
    if InOrder(xs[1..], x, y) {
      var m, n :| 0 <= m < n < |xs[1..]| && xs[1..][m] == x && xs[1..][n] == y;
      assert xs[m + 1] == x && xs[n + 1] == y;
    }
    if x == xs[0] && y in xs[1..] {
      var n :| 0 <= n < |xs[1..]| && xs[1..][n] == y;
      assert xs[0] == x && xs[n + 1] == y;
    }
  }

  lemma {:induction false} FilterPlaces(bs: seq<Balance>, p: Balance -> bool, i: nat, j: nat)
    requires i < j < |Filter(bs, p)|
    ensures InOrder(bs, Filter(bs, p)[i], Filter(bs, p)[j])
  {
    hide InOrder;
    var rest := Filter(bs[1..], p);
    InOrderBehind(bs, Filter(bs, p)[i], Filter(bs, p)[j]);
    if !p(bs[0]) {
      FilterPlaces(bs[1..], p, i, j);
    } else if i > 0 {
      FilterPlaces(bs[1..], p, i - 1, j - 1);
    } else {
      assert rest[j - 1] in rest;
    }
  }

  lemma ApproversAre(c: Content)
    requires Genuine(c)
    ensures forall id :: id in c.requiredApproverIds <==> Approves(c.expenses, id)
  {
    forall id ensures id in c.requiredApproverIds <==> Approves(c.expenses, id) {
      hide *;
      SP.ApproverIs(c, id);
      ApprovingIs(c.expenses, id);
    }
  }

  lemma ChosenInOrder(bs: seq<Balance>, p: Balance -> bool, ids: seq<string>)
    requires ids == Map(Filter(bs, p), IdOf)
    ensures forall i, j | 0 <= i < j < |ids| :: Precedes(bs, ids[i], ids[j])
  {
    hide Filter, Precedes;
    forall i, j | 0 <= i < j < |ids| ensures Precedes(bs, ids[i], ids[j]) {
      FilterPlaces(bs, p, i, j);
      NamesInOrder(bs, Filter(bs, p)[i], Filter(bs, p)[j]);
    }
  }

  lemma NamesInOrder(bs: seq<Balance>, x: Balance, y: Balance)
    requires InOrder(bs, x, y)
    ensures Precedes(bs, IdOf(x), IdOf(y))
  {
  }

  lemma ApproversListed(c: Content)
    requires Genuine(c)
    ensures ApproversFrom(c.requiredApproverIds, c.balances, c.expenses)
  {
    ApproversAre(c);
    ChosenInOrder(c.balances, MustApprove(Approving(c.expenses)), c.requiredApproverIds);
    hide Genuine, Approves, Precedes, Filter;
  }

  /** What the content of an accepted selection lists. */
  lemma ContentExact(groupId: string, es: seq<Expense>, c: Content)
    requires Admissible(groupId, es) && Genuine(c) && c.groupId == groupId && c.expenses == Canonical(es)
    ensures ListsAll(c.expenses, es) && BalancesFrom(c.balances, c.expenses)
    ensures ApproversFrom(c.requiredApproverIds, c.balances, c.expenses) && c.candidates == Instructions(c.balances)
  {
    hide *;
    CanonicalLists(groupId, es);
    GenuineSays(c);
    BalancesListed(c.balances, c.expenses);
    ApproversListed(c);
  }

  lemma GenuineSays(c: Content)
    requires Genuine(c)
    ensures SortedBy(c.balances, JoinedBefore) && Unique(c.balances) && Total(Amounts(InJoinOrder(c.balances))) == 0
    ensures (forall x: Balance :: x in c.balances <==> IsBalance(x, c.expenses))
    ensures c.candidates == Instructions(c.balances)
  {
    hide Admissible, Unique, IsBalance, Instructions, InJoinOrder, Approving;
  }
}
