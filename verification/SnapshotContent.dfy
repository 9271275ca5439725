/** The content of a settlement revision: selected expenses folded into balances, candidates and approvers. */
module SnapshotContent {
  import opened Sorting
  import opened Sequences
  import opened Text
  import opened Transfers
  import opened TransferSearch

  datatype Allocation = Allocation(participantId: string, joinOrder: int, percentage: int, burden: int)

  datatype Expense = Expense(
    expenseId: string, groupId: string, amount: int, payerParticipantId: string, allocations: seq<Allocation>)

  datatype Content = Content(
    groupId: string, expenses: seq<Expense>, balances: seq<Balance>,
    candidates: seq<Instruction>, requiredApproverIds: seq<string>)

  datatype SnapshotError =
    | GroupReferenceInvalid | SelectionEmpty | ExpenseReferenceEmpty | ExpenseDuplicated | ExpenseGroupMismatch
    | ExpenseAmountInvalid | AllocationCountInvalid | ParticipantIdEmpty | JoinOrderInvalid
    | ExpenseParticipantDuplicated | ExpenseOrderDuplicated | ParticipantOrderConflict
    | AllocationPercentageInvalid | AllocationBurdenInvalid | ZeroShareBurdenInvalid
    | PercentageTotalInvalid | BurdenTotalInvalid | PayerNotParticipant

  // ---- keys and measures ----

  function PersonOf(a: Allocation): string { a.participantId }
  function PlaceOf(a: Allocation): int { a.joinOrder }
  function PercentageOf(a: Allocation): int { a.percentage }
  function BurdenOf(a: Allocation): int { a.burden }
  function ExpenseIdOf(e: Expense): string { e.expenseId }
  function ExpenseAmountOf(e: Expense): int { e.amount }

  function PayerOf(e: Expense): string { e.payerParticipantId }

  function BurdenBy(id: string): Allocation -> int {
    Keyed(PersonOf, BurdenOf, id)
  }

  function PaidBy(id: string): Expense -> int {
    Keyed(PayerOf, ExpenseAmountOf, id)
  }

  /** All allocations of the expenses, in order. */
  function Flat(es: seq<Expense>): seq<Allocation> {
    if es == [] then [] else es[0].allocations + Flat(es[1..])
  }

  // ---- which selections are accepted ----

  predicate PercentageValid(a: Allocation) {
    0 <= a.percentage <= 100 && a.percentage % 10 == 0
  }

  predicate AllocationValid(a: Allocation) {
    && Nonempty(a.participantId) && 1 <= a.joinOrder <= MAX_SAFE
    && PercentageValid(a) && a.burden >= 0 && (a.percentage == 0 ==> a.burden == 0)
  }

  ghost predicate ExpenseValid(groupId: string, e: Expense) {
    && Nonempty(e.expenseId) && e.groupId == groupId && e.amount >= 0
    && 1 <= |e.allocations| <= 4
    && (forall a | a in e.allocations :: AllocationValid(a))
    && DistinctBy(e.allocations, PersonOf) && DistinctBy(e.allocations, PlaceOf)
    && Sum(e.allocations, PercentageOf) == 100
    && Sum(e.allocations, BurdenOf) == e.amount
    && (exists a :: a in e.allocations && a.participantId == e.payerParticipantId)
  }

  /** Across all expenses one participant has one join order and one join order has one participant. */
  ghost predicate Consistent(flat: seq<Allocation>) {
    forall a, a' | a in flat && a' in flat :: a.participantId == a'.participantId <==> a.joinOrder == a'.joinOrder
  }

  ghost predicate Admissible(groupId: string, es: seq<Expense>) {
    && CanonicalUuid(groupId) && es != []
    && (forall e | e in es :: ExpenseValid(groupId, e))
    && DistinctBy(es, ExpenseIdOf)
    && Consistent(Flat(es))
  }

  /** What the expense itself does wrong when it is rejected with `error`. */
  ghost predicate ExpenseViolates(error: SnapshotError, groupId: string, e: Expense) {
    match error
    case ExpenseReferenceEmpty => !Nonempty(e.expenseId)
    case ExpenseGroupMismatch => e.groupId != groupId
    case ExpenseAmountInvalid => e.amount < 0
    case AllocationCountInvalid => !(1 <= |e.allocations| <= 4)
    case ParticipantIdEmpty => exists a :: a in e.allocations && !Nonempty(a.participantId)
    case JoinOrderInvalid => exists a :: a in e.allocations && !(1 <= a.joinOrder <= MAX_SAFE)
    case ExpenseParticipantDuplicated => !DistinctBy(e.allocations, PersonOf)
    case ExpenseOrderDuplicated => !DistinctBy(e.allocations, PlaceOf)
    case AllocationPercentageInvalid => exists a :: a in e.allocations && !PercentageValid(a)
    case AllocationBurdenInvalid => exists a :: a in e.allocations && a.burden < 0
    case ZeroShareBurdenInvalid => exists a :: a in e.allocations && a.percentage == 0 && a.burden != 0
    case PercentageTotalInvalid => Sum(e.allocations, PercentageOf) != 100
    case BurdenTotalInvalid => Sum(e.allocations, BurdenOf) != e.amount
    case PayerNotParticipant => forall a | a in e.allocations :: a.participantId != e.payerParticipantId
    case _ => false
  }

  /** Each rejection names something that is really wrong with the selection. */
  ghost predicate Violates(error: SnapshotError, groupId: string, es: seq<Expense>) {
    match error
    case GroupReferenceInvalid => !CanonicalUuid(groupId)
    case SelectionEmpty => es == []
    case ExpenseDuplicated => !DistinctBy(es, ExpenseIdOf)
    case ParticipantOrderConflict => !Consistent(Flat(es))
    case _ => exists e :: e in es && ExpenseViolates(error, groupId, e)
  }

  // ---- the fixed content ----

  predicate PlacedBefore(l: Allocation, r: Allocation) {
    l.joinOrder <= r.joinOrder
  }

  predicate ByExpenseId(l: Expense, r: Expense) {
    StringLe(l.expenseId, r.expenseId)
  }

  function Fixed(e: Expense): Expense {
    e.(allocations := Sort(e.allocations, PlacedBefore))
  }

  function Canonical(es: seq<Expense>): seq<Expense> {
    Sort(Map(es, Fixed), ByExpenseId)
  }

  /** The balance of a participant of these expenses: what they paid less what they bear. */
  ghost predicate IsBalance(x: Balance, es: seq<Expense>) {
    && (exists a :: a in Flat(es) && a.participantId == x.participantId && a.joinOrder == x.joinOrder)
    && x.amount == Sum(es, PaidBy(x.participantId)) - Sum(Flat(es), BurdenBy(x.participantId))
  }

  function Persons(flat: seq<Allocation>): set<string> {
    set a | a in flat :: a.participantId
  }

  function Sharers(flat: seq<Allocation>): set<string> {
    set a | a in flat && a.percentage > 0 :: a.participantId
  }

  function Payers(es: seq<Expense>): set<string> {
    set e | e in es :: e.payerParticipantId
  }

  /** A required approver bears a positive share of one of the expenses or pays one. */
  function Approving(es: seq<Expense>): set<string> {
    Sharers(Flat(es)) + Payers(es)
  }

  function MustApprove(approvers: set<string>): Balance -> bool {
    (x: Balance) => x.participantId in approvers
  }

  /** Contents the factory hands out: the expenses in canonical form, and everything else determined by them. */
  ghost predicate Genuine(c: Content) {
    && Admissible(c.groupId, c.expenses)
    && SortedBy(c.expenses, ByExpenseId)
    && SortedBy(c.balances, JoinedBefore) && Unique(c.balances)
    && (forall x: Balance :: x in c.balances <==> IsBalance(x, c.expenses))
    && Total(Amounts(InJoinOrder(c.balances))) == 0
    && c.candidates == Instructions(c.balances)
    && c.requiredApproverIds == Map(Filter(c.balances, MustApprove(Approving(c.expenses))), IdOf)
  }

  // ---- rearranging and sorting the selection ----

  lemma {:induction false} FlatAppend(xs: seq<Expense>, ys: seq<Expense>)
    ensures Flat(xs + ys) == Flat(xs) + Flat(ys)
  {
    if xs == [] {
      assert xs + ys == ys;
    } else {
      assert (xs + ys)[1..] == xs[1..] + ys;
      FlatAppend(xs[1..], ys);
    }
  }

  lemma FlatSnoc(es: seq<Expense>, k: nat)
    requires k < |es|
    ensures Flat(es[..k + 1]) == Flat(es[..k]) + es[k].allocations
  {
    assert es[..k + 1] == es[..k] + [es[k]];
    FlatAppend(es[..k], [es[k]]);
    assert Flat([es[k]]) == es[k].allocations + Flat([]);
  }

  lemma {:induction false} FlatHas(es: seq<Expense>, a: Allocation)
    ensures a in Flat(es) <==> exists e :: e in es && a in e.allocations
  {
    if es != [] {
      FlatHas(es[1..], a);
      assert forall e :: e in es <==> e == es[0] || e in es[1..];
    }
  }

  lemma {:induction false} FlatPermutation(xs: seq<Expense>, ys: seq<Expense>)
    requires multiset(xs) == multiset(ys)
    ensures multiset(Flat(xs)) == multiset(Flat(ys))
  {
    SamePlaces(xs, ys);
    if xs == [] {
      assert ys == [];
    } else {
      assert xs[0] in ys;
      var i :| 0 <= i < |ys| && ys[i] == xs[0];
      HeadRemoved(xs);
      RemovedMultiset(ys, i);
      FlatPermutation(xs[1..], Without(ys, i));
      FlatWithout(ys, i);
      FlatWithout(xs, 0);
      assert Without(xs, 0) == xs[1..];
    }
  }

  lemma FlatWithout(es: seq<Expense>, i: nat)
    requires i < |es|
    ensures multiset(Flat(es)) == multiset(Flat(Without(es, i))) + multiset(es[i].allocations)
  {
    hide *;
    SplitAround(es, i);
    FlatInserted(es[..i], es[i], es[i + 1..]);
  }

  lemma FlatInserted(xs: seq<Expense>, e: Expense, ys: seq<Expense>)
    ensures multiset(Flat(xs + ([e] + ys))) == multiset(Flat(xs + ys)) + multiset(e.allocations)
  {
    hide *;
    FlatAppend(xs, [e] + ys);
    FlatCons(e, ys);
    FlatAppend(xs, ys);
    Interchange(Flat(xs), e.allocations, Flat(ys));
  }

  lemma SplitAround<T>(ts: seq<T>, i: nat)
    requires i < |ts|
    ensures Without(ts, i) == ts[..i] + ts[i + 1..] && ts == ts[..i] + ([ts[i]] + ts[i + 1..])
  {
  }

  lemma FlatCons(e: Expense, es: seq<Expense>)
    ensures Flat([e] + es) == e.allocations + Flat(es)
  {
    assert ([e] + es)[1..] == es;
  }

  lemma Interchange<T>(xs: seq<T>, ys: seq<T>, zs: seq<T>)
    ensures multiset(xs + (ys + zs)) == multiset(xs + zs) + multiset(ys)
  {
  }

  lemma {:induction false} FlatFixed(es: seq<Expense>)
    ensures multiset(Flat(Map(es, Fixed))) == multiset(Flat(es))
  {
    if es != [] {
      FlatFixed(es[1..]);
      assert Map(es, Fixed)[1..] == Map(es[1..], Fixed);
      SortSorts(es[0].allocations, PlacedBefore);
    }
  }

  lemma ExpenseOrder()
    ensures TotalPreorder(ByExpenseId)
  {
    forall x, y: Expense ensures ByExpenseId(x, y) || ByExpenseId(y, x) {
      StringLeTotal(x.expenseId, y.expenseId);
    }
    forall x, y, z: Expense | ByExpenseId(x, y) && ByExpenseId(y, z) ensures ByExpenseId(x, z) {
      StringLeTransitive(x.expenseId, y.expenseId, z.expenseId);
    }
  }

  lemma CanonicalShape(es: seq<Expense>)
    ensures SortedBy(Canonical(es), ByExpenseId) && multiset(Canonical(es)) == multiset(Map(es, Fixed))
    ensures multiset(Flat(Canonical(es))) == multiset(Flat(es))
    ensures forall e' :: e' in Canonical(es) <==> exists e :: e in es && e' == Fixed(e)
  {
    hide *;
    ExpenseOrder();
    CanonicalIs(es);
    SortSorts(Map(es, Fixed), ByExpenseId);
    FlatPermutation(Canonical(es), Map(es, Fixed));
    FlatFixed(es);
    SamePlaces(Canonical(es), Map(es, Fixed));
    forall e | e in es ensures Fixed(e) in Map(es, Fixed) {
      var i :| 0 <= i < |es| && es[i] == e;
      assert Map(es, Fixed)[i] == Fixed(e);
    }
    forall x | x in Map(es, Fixed) ensures exists e :: e in es && x == Fixed(e) {
      var i :| 0 <= i < |es| && Map(es, Fixed)[i] == x;
      assert es[i] in es;
    }
  }

  lemma CanonicalIs(es: seq<Expense>)
    ensures Canonical(es) == Sort(Map(es, Fixed), ByExpenseId)
  {
  }

  lemma FixedValid(groupId: string, e: Expense)
    requires ExpenseValid(groupId, e)
    ensures ExpenseValid(groupId, Fixed(e))
  {
    SortSorts(e.allocations, PlacedBefore);
    SamePlaces(e.allocations, Fixed(e).allocations);
    DistinctByRearranged(e.allocations, Fixed(e).allocations, PersonOf);
    DistinctByRearranged(e.allocations, Fixed(e).allocations, PlaceOf);
    SumPermutation(e.allocations, Fixed(e).allocations, PercentageOf);
    SumPermutation(e.allocations, Fixed(e).allocations, BurdenOf);
  }

  lemma CanonicalAdmissible(groupId: string, es: seq<Expense>)
    requires Admissible(groupId, es)
    ensures Admissible(groupId, Canonical(es))
  {
    CanonicalShape(es);
    SamePlaces(Flat(es), Flat(Canonical(es)));
    forall e' | e' in Canonical(es) ensures ExpenseValid(groupId, e') {
      var e :| e in es && e' == Fixed(e);
      FixedValid(groupId, e);
    }
    assert DistinctBy(Map(es, Fixed), ExpenseIdOf) by {
      forall i, j | 0 <= i < j < |es| ensures ExpenseIdOf(Map(es, Fixed)[i]) != ExpenseIdOf(Map(es, Fixed)[j]) {
        assert ExpenseIdOf(es[i]) != ExpenseIdOf(es[j]);
      }
    }
    DistinctByRearranged(Map(es, Fixed), Canonical(es), ExpenseIdOf);
    assert Canonical(es) != [] by {
      assert Fixed(es[0]) in Canonical(es);
    }
  }

  /** Canonical form keeps every participant's paid and borne amounts. */
  lemma CanonicalSums(es: seq<Expense>, id: string)
    ensures Sum(Canonical(es), PaidBy(id)) == Sum(es, PaidBy(id))
    ensures Sum(Flat(Canonical(es)), BurdenBy(id)) == Sum(Flat(es), BurdenBy(id))
  {
    CanonicalShape(es);
    SumPermutation(Canonical(es), Map(es, Fixed), PaidBy(id));
    forall e | e in es ensures PaidBy(id)(Fixed(e)) == PaidBy(id)(e) {
      assert PayerOf(Fixed(e)) == PayerOf(e) && ExpenseAmountOf(Fixed(e)) == ExpenseAmountOf(e);
    }
    SumMap(es, Fixed, PaidBy(id), PaidBy(id));
    SumPermutation(Flat(Canonical(es)), Flat(es), BurdenBy(id));
  }

  lemma CanonicalBalances(es: seq<Expense>, x: Balance)
    ensures IsBalance(x, Canonical(es)) <==> IsBalance(x, es)
  {
    CanonicalSums(es, x.participantId);
    CanonicalShape(es);
    SamePlaces(Flat(es), Flat(Canonical(es)));
  }

  lemma CanonicalApprovers(es: seq<Expense>)
    ensures Approving(Canonical(es)) == Approving(es)
  {
    CanonicalShape(es);
    SamePlaces(Flat(es), Flat(Canonical(es)));
    forall e | e in es ensures e.payerParticipantId in Payers(Canonical(es)) {
      assert Fixed(e) in Canonical(es);
    }
  }

  /** Canonical form forgets the order of the selected expenses. */
  lemma ExpensesRearranged(groupId: string, xs: seq<Expense>, ys: seq<Expense>)
    requires Admissible(groupId, xs) && multiset(xs) == multiset(ys)
    ensures Admissible(groupId, ys) && Canonical(xs) == Canonical(ys)
  {
    SamePlaces(xs, ys);
    FlatPermutation(xs, ys);
    SamePlaces(Flat(xs), Flat(ys));
    DistinctByRearranged(xs, ys, ExpenseIdOf);
    assert ys != [] by {
      assert xs[0] in ys;
    }
    MapPermutation(xs, ys, Fixed);
    ExpenseOrder();
    CanonicalAdmissible(groupId, xs);
    CanonicalShape(xs);
    DistinctByRearranged(Canonical(xs), Map(xs, Fixed), ExpenseIdOf);
    DistinctByCounts(Map(xs, Fixed), ExpenseIdOf);
    forall x, y | x in multiset(Map(xs, Fixed)) && y in multiset(Map(xs, Fixed)) && ByExpenseId(x, y) &&
      ByExpenseId(y, x)
      ensures x == y
    {
      StringLeTotal(x.expenseId, y.expenseId);
      assert x in Map(xs, Fixed) && y in Map(xs, Fixed) && ExpenseIdOf(x) == ExpenseIdOf(y);
    }
    SortForgetsOrder(Map(xs, Fixed), Map(ys, Fixed), ByExpenseId);
  }

  // ---- rearranging inside the expenses too ----

  /** The same expense with its allocations listed in another order. */
  ghost predicate SameExpense(e: Expense, e': Expense) {
    e' == e.(allocations := e'.allocations) && multiset(e.allocations) == multiset(e'.allocations)
  }

  ghost predicate SameExpenses(xs: seq<Expense>, ys: seq<Expense>) {
    |xs| == |ys| && forall i | 0 <= i < |xs| :: SameExpense(xs[i], ys[i])
  }

  /** The same selection in any order of its expenses and of the allocations inside each of them. */
  ghost predicate SameSelection(xs: seq<Expense>, ys: seq<Expense>) {
    exists zs :: multiset(xs) == multiset(zs) && SameExpenses(zs, ys)
  }

  lemma SameExpenseValid(groupId: string, e: Expense, e': Expense)
    requires ExpenseValid(groupId, e) && SameExpense(e, e')
    ensures ExpenseValid(groupId, e')
  {
    SamePlaces(e.allocations, e'.allocations);
    DistinctByRearranged(e.allocations, e'.allocations, PersonOf);
    DistinctByRearranged(e.allocations, e'.allocations, PlaceOf);
    SumPermutation(e.allocations, e'.allocations, PercentageOf);
    SumPermutation(e.allocations, e'.allocations, BurdenOf);
  }

  lemma SameFixed(e: Expense, e': Expense)
    requires DistinctBy(e.allocations, PlaceOf) && SameExpense(e, e')
    ensures Fixed(e) == Fixed(e')
  {
    DistinctByCounts(e.allocations, PlaceOf);
    forall x, y | x in multiset(e.allocations) && y in multiset(e.allocations) && PlacedBefore(x, y) &&
      PlacedBefore(y, x)
      ensures x == y
    {
      assert x in e.allocations && y in e.allocations && PlaceOf(x) == PlaceOf(y);
    }
    SortForgetsOrder(e.allocations, e'.allocations, PlacedBefore);
  }

  lemma SameExpensesFlipped(xs: seq<Expense>, ys: seq<Expense>)
    requires SameExpenses(xs, ys)
    ensures SameExpenses(ys, xs)
  {
    forall i | 0 <= i < |xs| ensures SameExpense(ys[i], xs[i]) {
      assert SameExpense(xs[i], ys[i]);
    }
  }

  lemma SameIds(xs: seq<Expense>, ys: seq<Expense>)
    requires SameExpenses(xs, ys) && DistinctBy(xs, ExpenseIdOf)
    ensures DistinctBy(ys, ExpenseIdOf)
  {
    forall i, j | 0 <= i < j < |ys| ensures ExpenseIdOf(ys[i]) != ExpenseIdOf(ys[j]) {
      assert SameExpense(xs[i], ys[i]) && SameExpense(xs[j], ys[j]) && ExpenseIdOf(xs[i]) != ExpenseIdOf(xs[j]);
    }
  }

  lemma SameMembers(xs: seq<Expense>, ys: seq<Expense>)
    requires Map(xs, Fixed) == Map(ys, Fixed)
    ensures Consistent(Flat(xs)) ==> Consistent(Flat(ys))
  {
    FlatFixed(xs);
    FlatFixed(ys);
    SamePlaces(Flat(xs), Flat(ys));
  }

  lemma AllocationsRearranged(groupId: string, xs: seq<Expense>, ys: seq<Expense>)
    requires Admissible(groupId, xs) && SameExpenses(xs, ys)
    ensures Admissible(groupId, ys) && Canonical(xs) == Canonical(ys)
  {
    hide Consistent, DistinctBy;
    forall i | 0 <= i < |xs| ensures ExpenseValid(groupId, ys[i]) && Fixed(xs[i]) == Fixed(ys[i]) {
      assert xs[i] in xs && SameExpense(xs[i], ys[i]);
      SameExpenseValid(groupId, xs[i], ys[i]);
      SameFixed(xs[i], ys[i]);
    }
    SameIds(xs, ys);
    hide ExpenseValid, SameExpense, Fixed;
    assert Map(xs, Fixed) == Map(ys, Fixed);
    SameMembers(xs, ys);
  }

  /** The input order is forgotten: of the selected expenses, and of the allocations inside each of them. */
  lemma CanonicalForgetsOrder(groupId: string, xs: seq<Expense>, ys: seq<Expense>)
    requires SameSelection(xs, ys)
    ensures Admissible(groupId, xs) <==> Admissible(groupId, ys)
    ensures Admissible(groupId, xs) ==> Canonical(xs) == Canonical(ys)
  {
    hide Admissible;
    var zs :| multiset(xs) == multiset(zs) && SameExpenses(zs, ys);
    SameExpensesFlipped(zs, ys);
    if Admissible(groupId, xs) {
      ExpensesRearranged(groupId, xs, zs);
      AllocationsRearranged(groupId, zs, ys);
    } else if Admissible(groupId, ys) {
      AllocationsRearranged(groupId, ys, zs);
      ExpensesRearranged(groupId, zs, xs);
    }
  }
}
