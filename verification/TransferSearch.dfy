/** The memoised search, and the derivation of candidates for identified participants. */
module TransferSearch {
  import opened Outcomes
  import opened Sorting
  import opened Sequences
  import opened Transfers
  import opened MinimalTransfers

  // ---- memo keys: decimal renderings joined by commas ----

  const DIGITS: string := "0123456789"

  function Digits(n: nat): (r: string)
    ensures |r| > 0 && ',' !in r && '-' !in r && r[0] != '-'
  {
    if n < 10 then [DIGITS[n]] else Digits(n / 10) + [DIGITS[n % 10]]
  }

  function Decimal(x: int): (r: string)
    ensures |r| > 0 && ',' !in r
  {
    if x < 0 then "-" + Digits(-x) else Digits(x)
  }

  function Key(b: Balances): string {
    if b == [] then "" else if |b| == 1 then Decimal(b[0]) else Decimal(b[0]) + "," + Key(b[1..])
  }

  lemma DigitsDiffer(i: nat, j: nat)
    requires i < 10 && j < 10 && DIGITS[i] == DIGITS[j]
    ensures i == j
  {
  }

  lemma {:induction false} DigitsInjective(m: nat, n: nat)
    requires Digits(m) == Digits(n)
    ensures m == n
  {
    var x, y := Digits(m), Digits(n);
    assert x[|x| - 1] == DIGITS[m % 10] && y[|y| - 1] == DIGITS[n % 10];
    DigitsDiffer(m % 10, n % 10);
    if m >= 10 && n >= 10 {
      assert x[..|x| - 1] == Digits(m / 10) && y[..|y| - 1] == Digits(n / 10);
      DigitsInjective(m / 10, n / 10);
    }
  }

  lemma DecimalInjective(x: int, y: int)
    requires Decimal(x) == Decimal(y)
    ensures x == y
  {
    DecimalSign(x);
    DecimalSign(y);
    hide *;
    DigitsInjective(if x < 0 then -x else x, if y < 0 then -y else y);
  }

  /** The sign shows in front, and the digits behind it are those of the magnitude. */
  lemma DecimalSign(x: int)
    ensures (Decimal(x)[0] == '-') == (x < 0)
    ensures Digits(if x < 0 then -x else x) == if Decimal(x)[0] == '-' then Decimal(x)[1..] else Decimal(x)
  {
    if x < 0 {
      assert ("-" + Digits(-x))[1..] == Digits(-x);
    }
  }

  lemma FirstComma(s: string, t: string)
    requires ',' !in s
    ensures var l := s + "," + t;
            l[|s|] == ',' && (forall i | 0 <= i < |s| :: l[i] != ',') && l[..|s|] == s && l[|s| + 1..] == t
  {
    assert forall i | 0 <= i < |s| :: s[i] in s;
  }

  lemma SplitAtComma(s: string, s': string, t: string, t': string)
    requires ',' !in s && ',' !in s' && s + "," + t == s' + "," + t'
    ensures s == s' && t == t'
  {
    FirstComma(s, t);
    FirstComma(s', t');
  }

  lemma KeyShape(b: Balances)
    ensures ',' in Key(b) <==> |b| > 1
    ensures Key(b) == "" <==> b == []
  {
    hide Decimal;
    if |b| > 1 {
      assert Key(b)[|Decimal(b[0])|] == ',';
    }
  }

  /** Different vectors have different memo keys, so a saved answer is never taken for another vector's. */
  lemma {:induction false} KeyInjective(x: Balances, y: Balances)
    requires Key(x) == Key(y)
    ensures x == y
  {
    KeyShape(x);
    KeyShape(y);
    if |x| > 1 {
      SplitAtComma(Decimal(x[0]), Decimal(y[0]), Key(x[1..]), Key(y[1..]));
      DecimalInjective(x[0], y[0]);
      KeyInjective(x[1..], y[1..]);
    } else if |x| == 1 {
      DecimalInjective(x[0], y[0]);
    }
  }

  // ---- the search with its memo ----

  method CompareCandidates(left: seq<Transfer>, right: seq<Transfer>) returns (order: int)
    ensures order == Compare(left, right)
  {
    if |left| != |right| {
      return |left| - |right|;
    }
    var i := 0;
    while i < |left|
      invariant 0 <= i <= |left|
      invariant Compare(left, right) == CompareFrom(left, right, i)
    {
      var order' := CompareEdge(left[i], right[i]);
      if order' != 0 {
        return order';
      }
      i := i + 1;
    }
    return 0;
  }

  class Search {
    /** Answers saved in this call, by key. */
    var memo: map<string, seq<Transfer>>

    ghost predicate Valid()
      reads this
    {
      forall b: Balances | Key(b) in memo :: memo[Key(b)] == Transfers.Solve(b)
    }

    constructor ()
      ensures Valid() && memo == map[]
    {
      memo := map[];
    }

    /** The candidate that cancels one pair first, with the rest of it from the memoised search. */
    method StartingWith(remaining: Balances, payer: nat, payee: nat) returns (candidate: seq<Transfer>)
      requires Valid() && Pair(remaining, payer, payee)
      modifies this
      ensures Valid() && candidate == Candidate(remaining, payer, payee)
      decreases Live(remaining), 0
    {
      var debt, credit := -remaining[payer], remaining[payee];
      var amount := if debt < credit then debt else credit;
      var next := remaining;
      next := next[payer := next[payer] + amount];
      next := next[payee := next[payee] - amount];
      CancelShrinks(remaining, payer, payee);
      assert next == Pay(remaining, Cancel(remaining, payer, payee));
      var rest := Solve(next);
      candidate := Sort([Transfer(payer, payee, amount)] + rest, EdgeLe);
    }

    /** The memoised search answers what the plain one does, and keeps every saved answer true. */
    method Solve(remaining: Balances) returns (best: seq<Transfer>)
      requires Valid()
      modifies this
      ensures Valid() && best == Transfers.Solve(remaining)
      decreases Live(remaining), 1
    {
      if AllZero(remaining) {
        return [];
      }
      var key := Key(remaining);
      if key in memo {
        return memo[key];
      }
      best := [];
      var payer := 0;
      while payer < |remaining|
        invariant 0 <= payer <= |remaining|
        invariant Valid()
        invariant Scan(remaining, payer, 0, best) == Transfers.Solve(remaining)
      {
        if remaining[payer] < 0 {
          var payee := 0;
          while payee < |remaining|
            invariant 0 <= payee <= |remaining|
            invariant Valid()
            invariant Scan(remaining, payer, payee, best) == Transfers.Solve(remaining)
          {
            if remaining[payee] > 0 {
              var candidate := StartingWith(remaining, payer, payee);
              var order := CompareCandidates(candidate, best);
              if |best| == 0 || order < 0 {
                best := candidate;
              }
            }
            payee := payee + 1;
          }
        } else {
          SkipPayer(remaining, payer, 0, best);
        }
        payer := payer + 1;
      }
      Save(key, best, remaining);
    }

    method Save(key: string, best: seq<Transfer>, ghost remaining: Balances)
      requires Valid() && key == Key(remaining) && best == Transfers.Solve(remaining)
      modifies this
      ensures Valid() && memo == old(memo)[key := best]
    {
      KeyUnique(remaining);
      memo := memo[key := best];
    }
  }

  lemma KeyUnique(b: Balances)
    ensures forall b': Balances | Key(b') == Key(b) :: b' == b
  {
    forall b': Balances | Key(b') == Key(b) ensures b' == b {
      KeyInjective(b', b);
    }
  }

  lemma {:induction false} SkipPayer(b: Balances, p: nat, q: nat, best: seq<Transfer>)
    requires p < |b| && q <= |b| && b[p] >= 0
    ensures Scan(b, p, q, best) == Scan(b, p + 1, 0, best)
    decreases |b| - q
  {
    if q < |b| {
      SkipPayer(b, p, q + 1, best);
    }
  }

  // ---- participants ----

  datatype Balance = Balance(participantId: string, joinOrder: int, amount: int)

  datatype Instruction = Instruction(payerParticipantId: string, payeeParticipantId: string, amount: int)

  datatype DerivationError = ParticipantDuplicated | JoinOrderDuplicated | BalanceTotalNotZero

  function Amounts(balances: seq<Balance>): (r: Balances)
    ensures |r| == |balances| && forall i | 0 <= i < |r| :: r[i] == balances[i].amount
  {
    seq(|balances|, i requires 0 <= i < |balances| => balances[i].amount)
  }

  predicate JoinedBefore(l: Balance, r: Balance) {
    l.joinOrder <= r.joinOrder
  }

  predicate SeenId(balances: seq<Balance>, k: nat, id: string)
    requires k <= |balances|
  {
    exists i :: 0 <= i < k && balances[i].participantId == id
  }

  predicate SeenOrder(balances: seq<Balance>, k: nat, order: int)
    requires k <= |balances|
  {
    exists i :: 0 <= i < k && balances[i].joinOrder == order
  }

  /** The first rejection the input meets from position `k` on, a repeated participant before a repeated order. */
  function Rejection(balances: seq<Balance>, k: nat): Result<(), DerivationError>
    requires k <= |balances|
    decreases |balances| - k
  {
    if k == |balances| then
      if Total(Amounts(balances)) == 0 then Ok(()) else Err(BalanceTotalNotZero)
    else if SeenId(balances, k, balances[k].participantId) then Err(ParticipantDuplicated)
    else if SeenOrder(balances, k, balances[k].joinOrder) then Err(JoinOrderDuplicated)
    else Rejection(balances, k + 1)
  }

  function InJoinOrder(balances: seq<Balance>): (r: seq<Balance>) {
    Sort(balances, JoinedBefore)
  }

  function Named(ordered: seq<Balance>, ts: seq<Transfer>): (r: seq<Instruction>)
    requires forall t | t in ts :: InRange(t, |ordered|)
    ensures |r| == |ts|
  {
    seq(|ts|, i requires 0 <= i < |ts| =>
      assert InRange(ts[i], |ordered|);
      Instruction(ordered[ts[i].payer].participantId, ordered[ts[i].payee].participantId, ts[i].amount))
  }

  function Instructions(balances: seq<Balance>): seq<Instruction>
    requires Total(Amounts(InJoinOrder(balances))) == 0
  {
    var ordered := InJoinOrder(balances);
    SolveCorrect(Amounts(ordered));
    Named(ordered, Transfers.Solve(Amounts(ordered)))
  }

  function IdOf(x: Balance): string {
    x.participantId
  }

  function OrderOf(x: Balance): int {
    x.joinOrder
  }

  function AmountOf(x: Balance): int {
    x.amount
  }

  ghost predicate Unique(balances: seq<Balance>) {
    DistinctBy(balances, IdOf) && DistinctBy(balances, OrderOf)
  }

  lemma {:induction false} RejectionFrom(balances: seq<Balance>, k: nat)
    requires k <= |balances|
    requires Unique(balances[..k])
    ensures Rejection(balances, k).Ok? <==> Unique(balances) && Total(Amounts(balances)) == 0
    decreases |balances| - k
  {
    if k == |balances| {
      assert balances[..k] == balances;
    } else if SeenId(balances, k, balances[k].participantId) {
      var i :| 0 <= i < k && balances[i].participantId == balances[k].participantId;
      assert IdOf(balances[i]) == IdOf(balances[k]);
    } else if SeenOrder(balances, k, balances[k].joinOrder) {
      var i :| 0 <= i < k && balances[i].joinOrder == balances[k].joinOrder;
      assert OrderOf(balances[i]) == OrderOf(balances[k]);
    } else {
      RejectionFrom(balances, k + 1);
    }
  }

  lemma {:induction false} TotalIsSum(xs: seq<Balance>)
    ensures Total(Amounts(xs)) == Sum(xs, AmountOf)
  {
    if xs != [] {
      TotalIsSum(xs[1..]);
      assert Amounts(xs)[1..] == Amounts(xs[1..]);
    }
  }

  lemma JoinOrderIsOrder()
    ensures TotalPreorder(JoinedBefore)
  {
  }

  lemma OrderedTotal(balances: seq<Balance>)
    ensures Total(Amounts(InJoinOrder(balances))) == Total(Amounts(balances))
  {
    JoinOrderIsOrder();
    SortSorts(balances, JoinedBefore);
    TotalIsSum(balances);
    TotalIsSum(InJoinOrder(balances));
    SumPermutation(InJoinOrder(balances), balances, AmountOf);
  }

  /**
   * Candidates for any input: rejected exactly when a participant or a join order repeats or the total is not
   * zero, and otherwise the search result over the balances in join order.
   */
  method DerivePaymentInstructionCandidates(balances: seq<Balance>)
    returns (r: Result<seq<Instruction>, DerivationError>)
    ensures r.Ok? <==> Unique(balances) && Total(Amounts(balances)) == 0
    ensures r.Err? ==> Rejection(balances, 0) == Err(r.error)
    ensures r.Ok? ==> Total(Amounts(InJoinOrder(balances))) == 0 && r.value == Instructions(balances)
  {
    RejectionFrom(balances, 0);
    var participantIds: set<string> := {};
    var joinOrders: set<int> := {};
    var k := 0;
    while k < |balances|
      invariant 0 <= k <= |balances|
      invariant participantIds == set i | 0 <= i < k :: balances[i].participantId
      invariant joinOrders == set i | 0 <= i < k :: balances[i].joinOrder
      invariant Rejection(balances, 0) == Rejection(balances, k)
    {
      if balances[k].participantId in participantIds {
        return Err(ParticipantDuplicated);
      }
      participantIds := participantIds + {balances[k].participantId};
      if balances[k].joinOrder in joinOrders {
        return Err(JoinOrderDuplicated);
      }
      joinOrders := joinOrders + {balances[k].joinOrder};
      k := k + 1;
    }
    if Total(Amounts(balances)) != 0 {
      return Err(BalanceTotalNotZero);
    }
    OrderedTotal(balances);
    SolveCorrect(Amounts(InJoinOrder(balances)));
    var ordered := InJoinOrder(balances);
    var search := new Search();
    var edges := search.Solve(Amounts(ordered));
    return Ok(Named(ordered, edges));
  }

  /** The input array's order does not matter. */
  lemma DerivationForgetsOrder(xs: seq<Balance>, ys: seq<Balance>)
    requires multiset(xs) == multiset(ys) && Unique(xs) && Total(Amounts(xs)) == 0
    ensures Total(Amounts(InJoinOrder(xs))) == 0 == Total(Amounts(InJoinOrder(ys)))
    ensures Instructions(xs) == Instructions(ys)
  {
    JoinOrderIsOrder();
    OrderedTotal(xs);
    OrderedTotal(ys);
    TotalIsSum(xs);
    TotalIsSum(ys);
    SumPermutation(xs, ys, AmountOf);
    DistinctByCounts(xs, OrderOf);
    forall x, y | x in multiset(xs) && y in multiset(xs) && JoinedBefore(x, y) && JoinedBefore(y, x)
      ensures x == y
    {
      assert x in xs && y in xs && OrderOf(x) == OrderOf(y);
    }
    SortForgetsOrder(xs, ys, JoinedBefore);
  }

  // ---- what the candidates mean for a participant ----

  function SenderOf(x: Instruction): string { x.payerParticipantId }
  function TakerOf(x: Instruction): string { x.payeeParticipantId }
  function InstructedAmount(x: Instruction): int { x.amount }

  function SentBy(id: string): Instruction -> int {
    Keyed(SenderOf, InstructedAmount, id)
  }

  function TakenBy(id: string): Instruction -> int {
    Keyed(TakerOf, InstructedAmount, id)
  }

  lemma {:induction false} NamedNet(ordered: seq<Balance>, ts: seq<Transfer>, v: nat)
    requires (forall t | t in ts :: InRange(t, |ordered|)) && v < |ordered| && DistinctBy(ordered, IdOf)
    ensures Sum(Named(ordered, ts), SentBy(ordered[v].participantId))
            - Sum(Named(ordered, ts), TakenBy(ordered[v].participantId)) == Net(ts, v)
  {
    if ts != [] {
      assert InRange(ts[0], |ordered|);
      NamedNet(ordered, ts[1..], v);
      assert Named(ordered, ts)[1..] == Named(ordered, ts[1..]);
      var id := ordered[v].participantId;
      var x := Named(ordered, ts)[0];
      forall i | 0 <= i < |ordered| && ordered[i].participantId == id ensures i == v {
        assert IdOf(ordered[i]) == IdOf(ordered[v]);
      }
      assert SentBy(id)(x) == (if SenderOf(x) == id then InstructedAmount(x) else 0);
      assert TakenBy(id)(x) == (if TakerOf(x) == id then InstructedAmount(x) else 0);
    }
  }

  lemma UniqueSorted(balances: seq<Balance>)
    requires Unique(balances)
    ensures Unique(InJoinOrder(balances)) && multiset(InJoinOrder(balances)) == multiset(balances)
    ensures SortedBy(InJoinOrder(balances), JoinedBefore)
  {
    JoinOrderIsOrder();
    SortSorts(balances, JoinedBefore);
    DistinctByRearranged(balances, InJoinOrder(balances), IdOf);
    DistinctByRearranged(balances, InJoinOrder(balances), OrderOf);
  }

  /** The candidates bring every participant's balance to exactly zero. */
  lemma CandidatesCloseBalances(balances: seq<Balance>, x: Balance)
    requires Unique(balances) && Total(Amounts(balances)) == 0 && x in balances
    ensures Total(Amounts(InJoinOrder(balances))) == 0
    ensures x.amount + Sum(Instructions(balances), SentBy(x.participantId))
            - Sum(Instructions(balances), TakenBy(x.participantId)) == 0
  {
    OrderedTotal(balances);
    UniqueSorted(balances);
    var ordered := InJoinOrder(balances);
    SolveCorrect(Amounts(ordered));
    assert x in multiset(ordered);
    var v :| 0 <= v < |ordered| && ordered[v] == x;
    NamedNet(ordered, Transfers.Solve(Amounts(ordered)), v);
    assert Amounts(ordered)[v] + Net(Transfers.Solve(Amounts(ordered)), v) == 0;
  }
}
