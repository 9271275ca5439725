/** What holds of every content the factory hands out. */
module SnapshotProperties {
  import opened Sorting
  import opened Sequences
  import opened Transfers
  import opened MinimalTransfers
  import opened TransferSearch
  import opened SnapshotContent

  predicate SameAllocation(l: Allocation, r: Allocation) {
    l.participantId == r.participantId && l.joinOrder == r.joinOrder &&
    l.percentage == r.percentage && l.burden == r.burden
  }

  /** The source's comparison: group, and expenses without their repeated group reference. */
  predicate Equals(c: Content, other: Content) {
    && c.groupId == other.groupId && |c.expenses| == |other.expenses|
    && forall i | 0 <= i < |c.expenses| ::
         var e, target := c.expenses[i], other.expenses[i];
         && e.expenseId == target.expenseId && e.amount == target.amount
         && e.payerParticipantId == target.payerParticipantId
         && |e.allocations| == |target.allocations|
         && forall j | 0 <= j < |e.allocations| :: SameAllocation(e.allocations[j], target.allocations[j])
  }

  /** The group and the fixed expenses determine the whole content. */
  lemma GenuineDetermined(c: Content, other: Content)
    requires Genuine(c) && Genuine(other) && c.groupId == other.groupId && c.expenses == other.expenses
    ensures c == other
  {
    SameElements(c.balances, other.balances, IdOf);
    DistinctByCounts(c.balances, OrderOf);
    forall x, y | x in multiset(c.balances) && y in multiset(c.balances) && JoinedBefore(x, y) && JoinedBefore(y, x)
      ensures x == y
    {
      assert x in c.balances && y in c.balances && OrderOf(x) == OrderOf(y);
    }
    SortedUnique(c.balances, other.balances, JoinedBefore);
  }

  /** The comparison, which looks at the selected facts only, is equality of whole contents. */
  lemma EqualsIsEquality(c: Content, other: Content)
    requires Genuine(c) && Genuine(other)
    ensures Equals(c, other) <==> c == other
  {
    if Equals(c, other) {
      forall i | 0 <= i < |c.expenses| ensures c.expenses[i] == other.expenses[i] {
        assert ExpenseValid(c.groupId, c.expenses[i]) && ExpenseValid(other.groupId, other.expenses[i]);
        forall j | 0 <= j < |c.expenses[i].allocations|
          ensures c.expenses[i].allocations[j] == other.expenses[i].allocations[j]
        {
          assert SameAllocation(c.expenses[i].allocations[j], other.expenses[i].allocations[j]);
        }
      }
      GenuineDetermined(c, other);
    }
  }

  /** Two selections that differ in order only, of expenses or of allocations inside them, give the same content. */
  lemma ContentForgetsOrder(groupId: string, xs: seq<Expense>, ys: seq<Expense>, cx: Content, cy: Content)
    requires Admissible(groupId, xs) && SameSelection(xs, ys)
    requires Genuine(cx) && cx.groupId == groupId && cx.expenses == Canonical(xs)
    requires Genuine(cy) && cy.groupId == groupId && cy.expenses == Canonical(ys)
    ensures cx == cy
  {
    CanonicalForgetsOrder(groupId, xs, ys);
    GenuineDetermined(cx, cy);
  }

  // ---- candidates against balances ----

  lemma GenuineOrder(c: Content)
    requires Genuine(c)
    ensures InJoinOrder(c.balances) == c.balances && Total(Amounts(c.balances)) == 0
  {
    SortOfSorted(c.balances, JoinedBefore);
  }

  /** A candidate goes from a participant who owes to one who is owed, for a positive amount. */
  lemma CandidateEnds(c: Content, i: nat) returns (payer: Balance, payee: Balance)
    requires Genuine(c) && i < |c.candidates|
    ensures payer in c.balances && payee in c.balances && payer.amount < 0 < payee.amount
    ensures c.candidates[i].payerParticipantId == payer.participantId
    ensures c.candidates[i].payeeParticipantId == payee.participantId
    ensures c.candidates[i].amount > 0 && payer.participantId != payee.participantId
  {
    GenuineOrder(c);
    var b := Amounts(c.balances);
    SolveCorrect(b);
    var t := Transfers.Solve(b)[i];
    assert Pair(b, t.payer, t.payee) && t.amount > 0;
    payer, payee := c.balances[t.payer], c.balances[t.payee];
    if t.payer < t.payee {
      assert IdOf(c.balances[t.payer]) != IdOf(c.balances[t.payee]);
    } else {
      assert IdOf(c.balances[t.payee]) != IdOf(c.balances[t.payer]);
    }
  }

  /** There is nothing to pay exactly when every balance is zero. */
  lemma NoCandidatesIffZero(c: Content)
    requires Genuine(c)
    ensures c.candidates == [] <==> forall x | x in c.balances :: x.amount == 0
  {
    GenuineOrder(c);
    var b := Amounts(c.balances);
    SolveCorrect(b);
    assert |c.candidates| == |Transfers.Solve(b)|;
    if AllZero(b) {
      forall x | x in c.balances ensures x.amount == 0 {
        var i :| 0 <= i < |c.balances| && c.balances[i] == x;
        assert b[i] == 0;
      }
    }
  }

  lemma NotInvolved(es: seq<Expense>, flat: seq<Allocation>, id: string)
    requires id !in Persons(flat)
    ensures Sum(flat, BurdenBy(id)) == 0
  {
    forall a | a in flat ensures PersonOf(a) != id {
      assert a.participantId in Persons(flat);
    }
    KeyedAbsent(flat, PersonOf, BurdenOf, id);
  }

  lemma PayersAreParticipants(c: Content)
    requires Genuine(c)
    ensures Payers(c.expenses) <= Persons(Flat(c.expenses))
  {
    forall e | e in c.expenses ensures e.payerParticipantId in Persons(Flat(c.expenses)) {
      assert ExpenseValid(c.groupId, e);
      var a :| a in e.allocations && a.participantId == e.payerParticipantId;
      FlatHas(c.expenses, a);
    }
  }

  lemma ParticipantBalance(c: Content, id: string) returns (x: Balance)
    requires Genuine(c) && id in Persons(Flat(c.expenses))
    ensures x in c.balances && x.participantId == id
    ensures x.amount == Sum(c.expenses, PaidBy(id)) - Sum(Flat(c.expenses), BurdenBy(id))
  {
    var a :| a in Flat(c.expenses) && a.participantId == id;
    x := Balance(id, a.joinOrder, Sum(c.expenses, PaidBy(id)) - Sum(Flat(c.expenses), BurdenBy(id)));
    assert IsBalance(x, c.expenses);
  }

  lemma Outsider(c: Content, id: string)
    requires Genuine(c) && id !in Persons(Flat(c.expenses))
    ensures Sum(c.expenses, PaidBy(id)) == 0 == Sum(Flat(c.expenses), BurdenBy(id))
    ensures Sum(c.candidates, SentBy(id)) == 0 == Sum(c.candidates, TakenBy(id))
  {
    NotInvolved(c.expenses, Flat(c.expenses), id);
    PayersAreParticipants(c);
    forall e | e in c.expenses ensures PayerOf(e) != id {
      assert e.payerParticipantId in Payers(c.expenses);
    }
    KeyedAbsent(c.expenses, PayerOf, ExpenseAmountOf, id);
    forall x | x in c.candidates ensures SenderOf(x) != id && TakerOf(x) != id {
      var i :| 0 <= i < |c.candidates| && c.candidates[i] == x;
      var payer, payee := CandidateEnds(c, i);
      assert IsBalance(payer, c.expenses) && IsBalance(payee, c.expenses);
    }
    KeyedAbsent(c.candidates, SenderOf, InstructedAmount, id);
    KeyedAbsent(c.candidates, TakerOf, InstructedAmount, id);
  }

  /** For everyone, what they paid for expenses and send by the candidates is what they bear and receive. */
  lemma CandidatesConserve(c: Content, id: string)
    requires Genuine(c)
    ensures Sum(c.expenses, PaidBy(id)) + Sum(c.candidates, SentBy(id)) - Sum(c.candidates, TakenBy(id))
            == Sum(Flat(c.expenses), BurdenBy(id))
  {
    if id in Persons(Flat(c.expenses)) {
      var x := ParticipantBalance(c, id);
      GenuineOrder(c);
      CandidatesCloseBalances(c.balances, x);
    } else {
      Outsider(c, id);
    }
  }

  // ---- approvers ----

  lemma ApproverIs(c: Content, id: string)
    requires Genuine(c)
    ensures id in c.requiredApproverIds <==> id in Approving(c.expenses)
  {
    var chosen := Filter(c.balances, MustApprove(Approving(c.expenses)));
    if id in Approving(c.expenses) {
      PayersAreParticipants(c);
      var x := ParticipantBalance(c, id);
      assert x in chosen;
      var i :| 0 <= i < |chosen| && chosen[i] == x;
      assert c.requiredApproverIds[i] == id;
    }
    if id in c.requiredApproverIds {
      var i :| 0 <= i < |chosen| && IdOf(chosen[i]) == id;
      assert chosen[i] in chosen;
    }
  }

  /** Someone always has to approve, and nobody is asked twice. */
  lemma ApproversDistinct(c: Content)
    requires Genuine(c)
    ensures c.requiredApproverIds != [] && DistinctBy(c.requiredApproverIds, Itself)
  {
    assert c.expenses[0].payerParticipantId in Payers(c.expenses);
    ApproverIs(c, c.expenses[0].payerParticipantId);
    var chosen := Filter(c.balances, MustApprove(Approving(c.expenses)));
    FilterDistinctBy(c.balances, MustApprove(Approving(c.expenses)), IdOf);
    forall i, j | 0 <= i < j < |chosen|
      ensures Itself(c.requiredApproverIds[i]) != Itself(c.requiredApproverIds[j])
    {
      assert IdOf(chosen[i]) != IdOf(chosen[j]);
    }
  }

  /** Someone who neither pays nor bears a positive share has a zero balance. */
  lemma NonApproverIsEven(c: Content, x: Balance)
    requires Genuine(c) && x in c.balances && x.participantId !in c.requiredApproverIds
    ensures x.amount == 0
  {
    var id := x.participantId;
    ApproverIs(c, id);
    assert IsBalance(x, c.expenses);
    forall e | e in c.expenses ensures PayerOf(e) != id {
      assert e.payerParticipantId in Payers(c.expenses);
    }
    KeyedAbsent(c.expenses, PayerOf, ExpenseAmountOf, id);
    forall a | a in Flat(c.expenses) && PersonOf(a) == id ensures a.burden == 0 {
      FlatHas(c.expenses, a);
      var e :| e in c.expenses && a in e.allocations;
      assert ExpenseValid(c.groupId, e) && AllocationValid(a);
      assert a.percentage > 0 ==> id in Sharers(Flat(c.expenses));
    }
    forall a | a in Flat(c.expenses) ensures BurdenBy(id)(a) == 0 {
      assert BurdenBy(id)(a) == if PersonOf(a) == id then BurdenOf(a) else 0;
    }
    SumEqual(Flat(c.expenses), BurdenBy(id), (a: Allocation) => 0);
    SumZero(Flat(c.expenses));
  }

  /** Whoever a candidate names as payer or payee has to approve it. */
  lemma CandidatePartiesApprove(c: Content, i: nat)
    requires Genuine(c) && i < |c.candidates|
    ensures c.candidates[i].payerParticipantId in c.requiredApproverIds
    ensures c.candidates[i].payeeParticipantId in c.requiredApproverIds
  {
    var payer, payee := CandidateEnds(c, i);
    if payer.participantId !in c.requiredApproverIds {
      NonApproverIsEven(c, payer);
    }
    if payee.participantId !in c.requiredApproverIds {
      NonApproverIsEven(c, payee);
    }
  }

  /** A sole approver owes nobody and is owed nothing, and so does everybody else. */
  lemma SoleApproverIsEven(c: Content)
    requires Genuine(c) && |c.requiredApproverIds| == 1
    ensures forall x | x in c.balances :: x.amount == 0
  {
    hide *;
    NoCandidatesIffZero(c);
    if c.candidates != [] {
      CandidatePartiesApprove(c, 0);
      var payer, payee := CandidateEnds(c, 0);
    }
  }
}
