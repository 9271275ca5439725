/** Balance vectors in join order, transfers over them, and the plain search for a shortest settlement. */
module Transfers {
  import opened Sorting
  import opened Sequences

  /** `amount` moves from the payer at one position of the vector to the payee at another. */
  datatype Transfer = Transfer(payer: nat, payee: nat, amount: int)

  type Balances = seq<int>

  predicate AllZero(b: Balances) {
    forall i | 0 <= i < |b| :: b[i] == 0
  }

  function Live(b: Balances): set<nat> {
    set i: nat | i < |b| && b[i] != 0
  }

  predicate InRange(t: Transfer, n: nat) {
    t.payer < n && t.payee < n
  }

  /** The vector after one transfer: the payer's balance rises and the payee's falls. */
  function Pay(b: Balances, t: Transfer): (r: Balances)
    requires InRange(t, |b|)
    ensures |r| == |b|
  {
    var paid := b[t.payer := b[t.payer] + t.amount];
    paid[t.payee := paid[t.payee] - t.amount]
  }

  function Total(b: Balances): int {
    if b == [] then 0 else b[0] + Total(b[1..])
  }

  // ---- comparison of edges and of candidate lists ----

  function CompareEdge(l: Transfer, r: Transfer): int {
    if l.payer != r.payer then l.payer - r.payer else l.payee - r.payee
  }

  predicate EdgeLe(l: Transfer, r: Transfer) {
    CompareEdge(l, r) <= 0
  }

  function CompareFrom(l: seq<Transfer>, r: seq<Transfer>, i: nat): int
    requires |l| == |r| && i <= |l|
    decreases |l| - i
  {
    if i == |l| then 0
    else if CompareEdge(l[i], r[i]) != 0 then CompareEdge(l[i], r[i])
    else CompareFrom(l, r, i + 1)
  }

  /** Shorter lists first, then the first differing (payer, payee) pair. Amounts are not compared. */
  function Compare(l: seq<Transfer>, r: seq<Transfer>): int {
    if |l| != |r| then |l| - |r| else CompareFrom(l, r, 0)
  }

  // ---- the plain (unmemoised) search ----

  function Min(x: int, y: int): int {
    if x < y then x else y
  }

  predicate Pair(b: Balances, p: nat, q: nat) {
    p < |b| && q < |b| && b[p] < 0 && b[q] > 0
  }

  /** The largest transfer from debtor `p` to creditor `q`; it empties at least one of them. */
  function Cancel(b: Balances, p: nat, q: nat): Transfer
    requires Pair(b, p, q)
  {
    Transfer(p, q, Min(-b[p], b[q]))
  }

  lemma CancelShrinks(b: Balances, p: nat, q: nat)
    requires Pair(b, p, q)
    ensures Live(Pay(b, Cancel(b, p, q))) < Live(b)
    ensures p !in Live(Pay(b, Cancel(b, p, q))) || q !in Live(Pay(b, Cancel(b, p, q)))
    ensures Live(b) <= Live(Pay(b, Cancel(b, p, q))) + {p, q}
  {
    assert p in Live(b) && q in Live(b);
  }

  /** The candidate that starts by cancelling `p` against `q`. */
  function Candidate(b: Balances, p: nat, q: nat): seq<Transfer>
    requires Pair(b, p, q)
    decreases Live(b), 0
  {
    CancelShrinks(b, p, q);
    Sort([Cancel(b, p, q)] + Solve(Pay(b, Cancel(b, p, q))), EdgeLe)
  }

  function Better(best: seq<Transfer>, candidate: seq<Transfer>): seq<Transfer> {
    if |best| == 0 || Compare(candidate, best) < 0 then candidate else best
  }

  /** The nested payer and payee loops from position (p, q) on, with the best candidate so far. */
  function Scan(b: Balances, p: nat, q: nat, best: seq<Transfer>): seq<Transfer>
    requires p <= |b| && q <= |b|
    decreases Live(b), 1, |b| - p, |b| - q
  {
    if p == |b| then best
    else if q == |b| then Scan(b, p + 1, 0, best)
    else if Pair(b, p, q) then Scan(b, p, q + 1, Better(best, Candidate(b, p, q)))
    else Scan(b, p, q + 1, best)
  }

  function Solve(b: Balances): seq<Transfer>
    decreases Live(b), 2
  {
    if AllZero(b) then [] else Scan(b, 0, 0, [])
  }

  // ---- what settles a vector ----

  /** What transfer `t` adds to position `v`. */
  function Delta(t: Transfer, v: nat): int {
    (if t.payer == v then t.amount else 0) - (if t.payee == v then t.amount else 0)
  }

  function Net(ts: seq<Transfer>, v: nat): int {
    if ts == [] then 0 else Delta(ts[0], v) + Net(ts[1..], v)
  }

  /** Any list of transfers between positions of `b`, of any sign and size, that leaves every balance at zero. */
  ghost predicate Settles(b: Balances, ts: seq<Transfer>) {
    && (forall t | t in ts :: InRange(t, |b|))
    && (forall v: nat | v < |b| :: b[v] + Net(ts, v) == 0)
  }

  /** Every transfer goes straight from a debtor to a creditor and moves a positive amount. */
  ghost predicate Direct(b: Balances, ts: seq<Transfer>) {
    forall t | t in ts :: Pair(b, t.payer, t.payee) && t.amount > 0
  }

  lemma PayPointwise(b: Balances, t: Transfer, v: nat)
    requires InRange(t, |b|) && v < |b|
    ensures Pay(b, t)[v] == b[v] + Delta(t, v)
  {
  }

  lemma SettlesCons(b: Balances, t: Transfer, ts: seq<Transfer>)
    requires InRange(t, |b|)
    ensures Settles(b, [t] + ts) <==> Settles(Pay(b, t), ts)
  {
    assert ([t] + ts)[1..] == ts;
    forall x | x in ts ensures x in [t] + ts {
    }
    forall v: nat | v < |b|
      ensures b[v] + Net([t] + ts, v) == Pay(b, t)[v] + Net(ts, v)
    {
      PayPointwise(b, t, v);
    }
  }

  lemma {:induction false} NetOfMultiset(xs: seq<Transfer>, ys: seq<Transfer>, v: nat)
    requires multiset(xs) == multiset(ys)
    ensures Net(xs, v) == Net(ys, v)
  {
    assert |multiset(xs)| == |xs| && |multiset(ys)| == |ys|;
    if xs != [] {
      assert xs[0] in multiset(xs);
      var i :| 0 <= i < |ys| && ys[i] == xs[0];
      RemoveFromNet(ys, i, v);
      HeadRemoved(xs);
      RemovedMultiset(ys, i);
      NetOfMultiset(xs[1..], Without(ys, i), v);
    }
  }

  lemma {:induction false} RemoveFromNet(ts: seq<Transfer>, i: nat, v: nat)
    requires i < |ts|
    ensures Net(ts, v) == Delta(ts[i], v) + Net(Without(ts, i), v)
  {
    if i == 0 {
      assert Without(ts, 0) == ts[1..];
    } else {
      RemoveFromNet(ts[1..], i - 1, v);
      assert Without(ts, i)[1..] == Without(ts[1..], i - 1);
    }
  }

  lemma SettlesRearranged(b: Balances, xs: seq<Transfer>, ys: seq<Transfer>)
    requires multiset(xs) == multiset(ys) && Settles(b, xs)
    ensures Settles(b, ys)
  {
    forall t | t in ys ensures InRange(t, |b|) {
      assert t in multiset(xs);
    }
    forall v: nat | v < |b| ensures b[v] + Net(ys, v) == 0 {
      NetOfMultiset(xs, ys, v);
    }
  }

  // ---- order of candidates ----

  lemma EdgeOrder()
    ensures TotalPreorder(EdgeLe)
  {
  }

  lemma {:induction false} CompareFromOpposite(l: seq<Transfer>, r: seq<Transfer>, i: nat)
    requires |l| == |r| && i <= |l|
    ensures CompareFrom(l, r, i) == -CompareFrom(r, l, i)
    decreases |l| - i
  {
    if i < |l| {
      CompareFromOpposite(l, r, i + 1);
    }
  }

  lemma CompareOpposite(l: seq<Transfer>, r: seq<Transfer>)
    ensures Compare(l, r) == -Compare(r, l)
  {
    if |l| == |r| {
      CompareFromOpposite(l, r, 0);
    }
  }

  lemma {:induction false} CompareFromTransitive(x: seq<Transfer>, y: seq<Transfer>, z: seq<Transfer>, i: nat)
    requires |x| == |y| == |z| && i <= |x|
    requires CompareFrom(x, y, i) <= 0 && CompareFrom(y, z, i) <= 0
    ensures CompareFrom(x, z, i) <= 0
    decreases |x| - i
  {
    if i < |x| && CompareEdge(x[i], y[i]) == 0 && CompareEdge(y[i], z[i]) == 0 {
      CompareFromTransitive(x, y, z, i + 1);
    }
  }

  lemma CompareTransitive(x: seq<Transfer>, y: seq<Transfer>, z: seq<Transfer>)
    requires Compare(x, y) <= 0 && Compare(y, z) <= 0
    ensures Compare(x, z) <= 0
  {
    if |x| == |y| == |z| {
      CompareFromTransitive(x, y, z, 0);
    }
  }

  // ---- what the scan returns ----

  predicate Later(p0: nat, q0: nat, p: nat, q: nat) {
    p0 < p || (p0 == p && q0 <= q)
  }

  /** The scan returns its starting list or a candidate it met, and nothing it met comes before the result. */
  ghost predicate BestFrom(b: Balances, p: nat, q: nat, best: seq<Transfer>, r: seq<Transfer>) {
    && (r == best || exists p', q' :: Later(p, q, p', q') && Pair(b, p', q') && r == Candidate(b, p', q'))
    && (best != [] ==> r != [] && Compare(r, best) <= 0)
    && (forall p', q' | Later(p, q, p', q') && Pair(b, p', q') :: r != [] && Compare(r, Candidate(b, p', q')) <= 0)
  }

  lemma CandidateShape(b: Balances, p: nat, q: nat)
    requires Pair(b, p, q)
    ensures Candidate(b, p, q) != []
    ensures |Candidate(b, p, q)| == 1 + |Solve(Pay(b, Cancel(b, p, q)))|
    ensures SortedBy(Candidate(b, p, q), EdgeLe)
  {
    EdgeOrder();
    SortSorts([Cancel(b, p, q)] + Solve(Pay(b, Cancel(b, p, q))), EdgeLe);
  }

  lemma BetterIsBest(best: seq<Transfer>, c: seq<Transfer>)
    requires c != []
    ensures Better(best, c) != [] && Compare(Better(best, c), c) <= 0
    ensures best != [] ==> Compare(Better(best, c), best) <= 0
  {
    CompareOpposite(c, best);
    CompareOpposite(c, c);
    CompareOpposite(best, best);
  }

  lemma BestFromStep(b: Balances, p: nat, q: nat, best: seq<Transfer>, r: seq<Transfer>)
    requires Pair(b, p, q)
    requires BestFrom(b, p, q + 1, Better(best, Candidate(b, p, q)), r)
    ensures BestFrom(b, p, q, best, r)
  {
    var c := Candidate(b, p, q);
    var next := Better(best, c);
    CandidateShape(b, p, q);
    BetterIsBest(best, c);
    CompareTransitive(r, next, c);
    if best != [] {
      CompareTransitive(r, next, best);
    }
    forall p', q' | Later(p, q, p', q') && Pair(b, p', q')
      ensures r != [] && Compare(r, Candidate(b, p', q')) <= 0
    {
      if !(p' == p && q' == q) {
        assert Later(p, q + 1, p', q');
      }
    }
    if r != best && r != c {
      var p', q' :| Later(p, q + 1, p', q') && Pair(b, p', q') && r == Candidate(b, p', q');
      assert Later(p, q, p', q');
    } else if r == c {
      assert Later(p, q, p, q);
    }
  }

  lemma {:induction false} ScanIsBest(b: Balances, p: nat, q: nat, best: seq<Transfer>)
    requires p <= |b| && q <= |b|
    ensures BestFrom(b, p, q, best, Scan(b, p, q, best))
    decreases |b| - p, |b| - q
  {
    hide *;
    ScanIs(b, p, q, best);
    if p == |b| {
      NothingLater(b, q, best);
    } else if q == |b| {
      ScanIsBest(b, p + 1, 0, best);
      NextRow(b, p, best, Scan(b, p + 1, 0, best));
    } else if Pair(b, p, q) {
      ScanIsBest(b, p, q + 1, Better(best, Candidate(b, p, q)));
      BestFromStep(b, p, q, best, Scan(b, p, q, best));
    } else {
      ScanIsBest(b, p, q + 1, best);
      NoPairHere(b, p, q, best, Scan(b, p, q + 1, best));
    }
  }

  lemma ScanIs(b: Balances, p: nat, q: nat, best: seq<Transfer>)
    requires p <= |b| && q <= |b|
    ensures Scan(b, p, q, best) ==
            if p == |b| then best
            else if q == |b| then Scan(b, p + 1, 0, best)
            else if Pair(b, p, q) then Scan(b, p, q + 1, Better(best, Candidate(b, p, q)))
            else Scan(b, p, q + 1, best)
  {
    hide Candidate, Better;
  }

  lemma NothingLater(b: Balances, q: nat, best: seq<Transfer>)
    ensures BestFrom(b, |b|, q, best, best)
  {
    CompareOpposite(best, best);
    hide Candidate, Compare;
  }

  lemma NextRow(b: Balances, p: nat, best: seq<Transfer>, r: seq<Transfer>)
    requires p < |b| && BestFrom(b, p + 1, 0, best, r)
    ensures BestFrom(b, p, |b|, best, r)
  {
    forall p', q' | Pair(b, p', q') ensures Later(p, |b|, p', q') <==> Later(p + 1, 0, p', q') {
    }
    hide Candidate, Compare, Pair, Later;
  }

  lemma NoPairHere(b: Balances, p: nat, q: nat, best: seq<Transfer>, r: seq<Transfer>)
    requires !Pair(b, p, q) && BestFrom(b, p, q + 1, best, r)
    ensures BestFrom(b, p, q, best, r)
  {
    forall p', q' | Pair(b, p', q') ensures Later(p, q, p', q') <==> Later(p, q + 1, p', q') {
    }
    hide Candidate, Compare, Pair, Later;
  }

  /** The search result is one of the candidates, and no candidate comes before it. */
  lemma SolveIsBest(b: Balances)
    requires exists p, q :: Pair(b, p, q)
    ensures exists p, q :: Pair(b, p, q) && Solve(b) == Candidate(b, p, q)
    ensures forall p, q | Pair(b, p, q) :: Compare(Solve(b), Candidate(b, p, q)) <= 0
  {
    ScanIsBest(b, 0, 0, []);
    forall p, q | Pair(b, p, q)
      ensures Later(0, 0, p, q) && Compare(Solve(b), Candidate(b, p, q)) <= 0 && Solve(b) != [] {
    }
    var p, q :| Pair(b, p, q);
    assert Solve(b) != [];
  }

  lemma SolveSorted(b: Balances)
    ensures SortedBy(Solve(b), EdgeLe)
  {
    if p, q :| Pair(b, p, q) {
      SolveIsBest(b);
      var p', q' :| Pair(b, p', q') && Solve(b) == Candidate(b, p', q');
      CandidateShape(b, p', q');
    } else {
      ScanIsBest(b, 0, 0, []);
    }
  }

  /** Adding one transfer to a candidate puts it in its place in the sorted list. */
  lemma CandidateInserts(b: Balances, p: nat, q: nat)
    requires Pair(b, p, q)
    ensures Candidate(b, p, q) == Insert(Cancel(b, p, q), Solve(Pay(b, Cancel(b, p, q))), EdgeLe)
    ensures multiset(Candidate(b, p, q)) ==
            multiset(Solve(Pay(b, Cancel(b, p, q)))) + multiset{Cancel(b, p, q)}
  {
    var e, s := Cancel(b, p, q), Solve(Pay(b, Cancel(b, p, q)));
    SolveSorted(Pay(b, e));
    SortOfSorted(s, EdgeLe);
    assert ([e] + s)[1..] == s;
    InsertMultiset(e, s, EdgeLe);
  }
}
