/** The canonical order of candidates, said place by place: smaller payer first, then smaller payee. */
module CandidateOrder {
  import opened Sorting
  import opened Sequences
  import opened Transfers
  import opened MinimalTransfers
  import opened CanonicalTransfers
  import opened TransferSearch

  /** Every transfer comes before the next ones: a smaller payer, or the same payer and a smaller payee. */
  ghost predicate Ascending(ts: seq<Transfer>) {
    forall i, j | 0 <= i < j < |ts| ::
      ts[i].payer < ts[j].payer || (ts[i].payer == ts[j].payer && ts[i].payee < ts[j].payee)
  }

  /**
   * The lists first differ at `k`, and there the left one has the smaller payer, or the same payer and smaller payee.
   */
  ghost predicate AheadAt(l: seq<Transfer>, r: seq<Transfer>, k: nat)
    requires |l| == |r|
  {
    && k < |l| && (forall i | 0 <= i < k :: l[i].payer == r[i].payer && l[i].payee == r[i].payee)
    && (l[k].payer < r[k].payer || (l[k].payer == r[k].payer && l[k].payee < r[k].payee))
  }

  ghost predicate PairedAlike(l: seq<Transfer>, r: seq<Transfer>) {
    |l| == |r| && forall i | 0 <= i < |l| :: l[i].payer == r[i].payer && l[i].payee == r[i].payee
  }

  /** The search result is listed by ascending payer and payee, without a repeated pair. */
  lemma SolveAscends(b: Balances)
    requires Total(b) == 0
    ensures Ascending(Solve(b))
  {
    SolveCorrect(b);
    SolveDistinct(b);
    SortedDistinctAscends(Solve(b));
  }

  lemma SortedDistinctAscends(ts: seq<Transfer>)
    requires SortedBy(ts, EdgeLe) && DistinctPairs(ts)
    ensures Ascending(ts)
  {
    forall i, j | 0 <= i < j < |ts|
      ensures ts[i].payer < ts[j].payer || (ts[i].payer == ts[j].payer && ts[i].payee < ts[j].payee)
    {
      assert EdgeLe(ts[i], ts[j]) && CompareEdge(ts[i], ts[j]) != 0;
    }
  }

  /** Sorted, with repetitions allowed. */
  ghost predicate Listed(ts: seq<Transfer>) {
    forall i, j | 0 <= i < j < |ts| ::
      ts[i].payer < ts[j].payer || (ts[i].payer == ts[j].payer && ts[i].payee <= ts[j].payee)
  }

  lemma ListedSorted(ts: seq<Transfer>)
    requires Listed(ts)
    ensures SortedBy(ts, EdgeLe)
  {
  }

  lemma NotAhead(l: seq<Transfer>, r: seq<Transfer>, i: nat)
    requires |l| == |r| && i < |l| && CompareEdge(l[i], r[i]) > 0
    requires forall n | 0 <= n < i :: l[n].payer == r[n].payer && l[n].payee == r[n].payee
    ensures !exists k :: AheadAt(l, r, k)
  {
    forall k: nat ensures !AheadAt(l, r, k) {
      assert k < i || k == i || k > i;
    }
  }

  lemma {:induction false} CompareSays(l: seq<Transfer>, r: seq<Transfer>, i: nat)
    requires |l| == |r| && i <= |l|
    requires forall n | 0 <= n < i :: l[n].payer == r[n].payer && l[n].payee == r[n].payee
    ensures CompareFrom(l, r, i) < 0 <==> exists k :: AheadAt(l, r, k)
    ensures CompareFrom(l, r, i) == 0 <==> PairedAlike(l, r)
    decreases |l| - i
  {
    if i < |l| {
      if CompareEdge(l[i], r[i]) == 0 {
        CompareSays(l, r, i + 1);
      } else if CompareEdge(l[i], r[i]) < 0 {
        assert AheadAt(l, r, i);
      } else {
        NotAhead(l, r, i);
      }
    }
  }

  /**
   * The comparison prefers shorter lists, and between equally long ones the one that is ahead where they first differ.
   */
  lemma CompareMeans(l: seq<Transfer>, r: seq<Transfer>)
    ensures Compare(l, r) < 0 <==> |l| < |r| || (|l| == |r| && exists k :: AheadAt(l, r, k))
    ensures Compare(l, r) == 0 <==> PairedAlike(l, r)
    ensures Compare(l, r) > 0 <==> |l| > |r| || (|l| == |r| && exists k :: AheadAt(r, l, k))
  {
    CompareOpposite(l, r);
    if |l| == |r| {
      CompareSays(l, r, 0);
      CompareSays(r, l, 0);
    }
  }

  /**
   * Every other direct settlement of the same length, listed by payer and payee, pays between other participants
   * somewhere; where it first does, the search result has the smaller payer, or the same payer and the smaller payee.
   */
  lemma SolveIsAhead(b: Balances, ts: seq<Transfer>)
    requires Direct(b, ts) && Settles(b, ts) && Listed(ts) && |ts| == |Solve(b)|
    ensures ts == Solve(b) || exists k :: AheadAt(Solve(b), ts, k)
  {
    hide *;
    ListedSorted(ts);
    SolveIsFirst(b, ts);
    CompareMeans(Solve(b), ts);
    if Compare(Solve(b), ts) == 0 {
      CompareOpposite(ts, Solve(b));
      SolveIsUnique(b, ts);
    }
  }

  // ---- the named instructions ----

  /** The join orders of the payer and payee whom an instruction names. */
  ghost predicate Names(balances: seq<Balance>, x: Instruction, payer: Balance, payee: Balance) {
    && payer in balances && payee in balances
    && payer.participantId == x.payerParticipantId && payee.participantId == x.payeeParticipantId
  }

  lemma SortedOrders(ordered: seq<Balance>, i: nat, j: nat)
    requires SortedBy(ordered, JoinedBefore) && DistinctBy(ordered, OrderOf) && i < |ordered| && j < |ordered|
    ensures i < j <==> ordered[i].joinOrder < ordered[j].joinOrder
  {
    if i < j {
      assert JoinedBefore(ordered[i], ordered[j]) && OrderOf(ordered[i]) != OrderOf(ordered[j]);
    } else if j < i {
      assert JoinedBefore(ordered[j], ordered[i]);
    }
  }

  lemma NamedAt(ordered: seq<Balance>, x: Balance, n: nat)
    requires DistinctBy(ordered, IdOf) && x in ordered && n < |ordered| && x.participantId == ordered[n].participantId
    ensures x == ordered[n]
  {
    DistinctByCounts(ordered, IdOf);
    assert IdOf(x) == IdOf(ordered[n]);
  }

  /** The instructions are listed by ascending join order of the payer, and then of the payee. */
  lemma InstructionsAscend(balances: seq<Balance>, i: nat, j: nat, p: Balance, q: Balance, p': Balance, q': Balance)
    requires Unique(balances) && Total(Amounts(InJoinOrder(balances))) == 0
    requires i < j < |Instructions(balances)|
    requires Names(balances, Instructions(balances)[i], p, q) && Names(balances, Instructions(balances)[j], p', q')
    ensures p.joinOrder < p'.joinOrder || (p.joinOrder == p'.joinOrder && q.joinOrder < q'.joinOrder)
  {
    var ordered := InJoinOrder(balances);
    var b := Amounts(ordered);
    UniqueSorted(balances);
    SolveCorrect(b);
    SolveAscends(b);
    SamePlaces(ordered, balances);
    var ts := Solve(b);
    var s, t := ts[i], ts[j];
    assert InRange(s, |ordered|) && InRange(t, |ordered|);
    hide InJoinOrder, Amounts, Solve, Direct, Settles, SortedBy, DistinctBy, AllZero;
    NamedAt(ordered, p, s.payer);
    NamedAt(ordered, q, s.payee);
    NamedAt(ordered, p', t.payer);
    NamedAt(ordered, q', t.payee);
    SortedOrders(ordered, s.payer, t.payer);
    SortedOrders(ordered, s.payee, t.payee);
  }
}
