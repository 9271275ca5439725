/** Which of the shortest settlements the search returns: the first in join order, with a forest for its support. */
module CanonicalTransfers {
  import opened Sorting
  import opened Sequences
  import opened Transfers
  import opened MinimalTransfers

  predicate Touches(t: Transfer, v: nat) {
    t.payer == v || t.payee == v
  }

  function Degree(ts: seq<Transfer>, v: nat): nat {
    if ts == [] then 0 else (if Touches(ts[0], v) then 1 else 0) + Degree(ts[1..], v)
  }

  function Load(ts: seq<Transfer>, v: nat): int {
    if ts == [] then 0 else (if Touches(ts[0], v) then ts[0].amount else 0) + Load(ts[1..], v)
  }

  function Abs(x: int): nat {
    if x < 0 then -x else x
  }

  lemma {:induction false} RemoveFromDegree(ts: seq<Transfer>, i: nat, v: nat)
    requires i < |ts|
    ensures Degree(ts, v) == (if Touches(ts[i], v) then 1 else 0) + Degree(Without(ts, i), v)
    ensures Load(ts, v) == (if Touches(ts[i], v) then ts[i].amount else 0) + Load(Without(ts, i), v)
  {
    if i == 0 {
      assert Without(ts, 0) == ts[1..];
    } else {
      RemoveFromDegree(ts[1..], i - 1, v);
      assert Without(ts, i)[1..] == Without(ts[1..], i - 1);
    }
  }

  lemma {:induction false} DirectNet(b: Balances, ts: seq<Transfer>, v: nat)
    requires Direct(b, ts) && v < |b|
    ensures Net(ts, v) == if b[v] < 0 then Load(ts, v) else -Load(ts, v)
    ensures b[v] == 0 ==> Degree(ts, v) == 0
    ensures Load(ts, v) >= 0 && (Degree(ts, v) == 0 <==> Load(ts, v) == 0)
  {
    if ts != [] {
      assert Pair(b, ts[0].payer, ts[0].payee) && ts[0].amount > 0;
      DirectNet(b, ts[1..], v);
    }
  }

  /** A direct list settles exactly when each position's transfers add up to the size of its balance. */
  lemma DirectLoad(b: Balances, ts: seq<Transfer>)
    requires Direct(b, ts)
    ensures Settles(b, ts) <==> forall v: nat | v < |b| :: Load(ts, v) == Abs(b[v])
  {
    forall v: nat | v < |b|
      ensures b[v] + Net(ts, v) == 0 <==> Load(ts, v) == Abs(b[v])
    {
      DirectNet(b, ts, v);
    }
    forall t | t in ts ensures InRange(t, |b|) {
      assert Pair(b, t.payer, t.payee);
    }
  }

  // ---- a short direct settlement has a leaf ----

  function DegreeSum(ts: seq<Transfer>, n: nat): nat {
    if n == 0 then 0 else DegreeSum(ts, n - 1) + Degree(ts, n - 1)
  }

  lemma {:induction false} DegreeSumCons(ts: seq<Transfer>, n: nat)
    requires ts != [] && ts[0].payer != ts[0].payee
    ensures DegreeSum(ts, n) == DegreeSum(ts[1..], n)
            + (if ts[0].payer < n then 1 else 0) + (if ts[0].payee < n then 1 else 0)
  {
    if n > 0 {
      DegreeSumCons(ts, n - 1);
    }
  }

  lemma {:induction false} Handshake(b: Balances, ts: seq<Transfer>)
    requires Direct(b, ts)
    ensures DegreeSum(ts, |b|) == 2 * |ts|
  {
    if ts == [] {
      NoDegrees(|b|);
    } else {
      assert Pair(b, ts[0].payer, ts[0].payee);
      Handshake(b, ts[1..]);
      DegreeSumCons(ts, |b|);
    }
  }

  lemma {:induction false} NoDegrees(n: nat)
    ensures DegreeSum([], n) == 0
  {
    if n > 0 {
      NoDegrees(n - 1);
    }
  }

  lemma {:induction false} CrowdedSum(b: Balances, ts: seq<Transfer>, n: nat)
    requires n <= |b| && forall v | v in Live(b) :: Degree(ts, v) >= 2
    ensures DegreeSum(ts, n) >= 2 * |set v | v in Live(b) && v < n|
  {
    hide Degree, Live;
    var now := set v | v in Live(b) && v < n;
    if n > 0 {
      CrowdedSum(b, ts, n - 1);
      var before := set v | v in Live(b) && v < n - 1;
      if n - 1 in Live(b) {
        assert now == before + {n - 1};
      } else {
        assert now == before;
      }
    } else {
      assert now == {};
    }
  }

  lemma FindLeaf(b: Balances, ts: seq<Transfer>) returns (v: nat)
    requires Direct(b, ts) && Settles(b, ts) && |ts| < |Live(b)|
    ensures v in Live(b) && Degree(ts, v) == 1
  {
    Handshake(b, ts);
    assert (set u | u in Live(b) && u < |b|) == Live(b);
    if forall u | u in Live(b) :: Degree(ts, u) >= 2 {
      CrowdedSum(b, ts, |b|);
    }
    v :| v in Live(b) && Degree(ts, v) < 2;
    DirectLoad(b, ts);
    DirectNet(b, ts, v);
  }

  lemma {:induction false} TouchedIndex(ts: seq<Transfer>, v: nat) returns (i: nat)
    requires Degree(ts, v) > 0
    ensures i < |ts| && Touches(ts[i], v)
  {
    if Touches(ts[0], v) {
      i := 0;
    } else {
      i := TouchedIndex(ts[1..], v);
      i := i + 1;
    }
  }

  lemma {:induction false} Untouched(ts: seq<Transfer>, v: nat)
    requires Degree(ts, v) == 0
    ensures forall t | t in ts :: !Touches(t, v)
  {
    if ts != [] {
      Untouched(ts[1..], v);
    }
  }

  /** The one transfer at a leaf is the largest its two ends allow, and the others settle what it leaves. */
  lemma LeafIsCancel(b: Balances, ts: seq<Transfer>, v: nat, i: nat)
    requires Direct(b, ts) && Settles(b, ts)
    requires i < |ts| && v < |b| && Degree(ts, v) == 1 && Touches(ts[i], v)
    ensures Pair(b, ts[i].payer, ts[i].payee) && ts[i] == Cancel(b, ts[i].payer, ts[i].payee)
    ensures Settles(Pay(b, ts[i]), Without(ts, i)) && Direct(Pay(b, ts[i]), Without(ts, i))
  {
    var e, rest := ts[i], Without(ts, i);
    assert Pair(b, e.payer, e.payee);
    assert Direct(b, rest);
    DirectLoad(b, ts);
    forall u: nat | u < |b| ensures Load(rest, u) == Abs(b[u]) - (if Touches(e, u) then e.amount else 0) {
      RemoveFromDegree(ts, i, u);
    }
    DirectNet(b, rest, e.payer);
    DirectNet(b, rest, e.payee);
    RemoveFromDegree(ts, i, v);
    DirectNet(b, rest, v);
    assert Load(rest, e.payer) >= 0 && Load(rest, e.payee) >= 0 && Load(rest, v) == 0;
    assert e == Cancel(b, e.payer, e.payee);
    RestDirect(b, e, rest);
    DirectLoad(Pay(b, e), rest);
  }

  lemma RestDirect(b: Balances, e: Transfer, rest: seq<Transfer>)
    requires Pair(b, e.payer, e.payee) && Direct(b, rest) && 0 < e.amount <= Min(-b[e.payer], b[e.payee])
    requires forall u: nat | u < |b| :: Load(rest, u) == Abs(b[u]) - (if Touches(e, u) then e.amount else 0)
    ensures Direct(Pay(b, e), rest)
  {
    forall t | t in rest ensures Pair(Pay(b, e), t.payer, t.payee) && t.amount > 0 {
      assert Pair(b, t.payer, t.payee);
      DirectNet(b, rest, t.payer);
      DirectNet(b, rest, t.payee);
      if Degree(rest, t.payer) == 0 {
        Untouched(rest, t.payer);
      }
      if Degree(rest, t.payee) == 0 {
        Untouched(rest, t.payee);
      }
    }
  }

  // ---- the first shortest direct settlement in join order ----

  lemma {:induction false} CompareFromShift(l: seq<Transfer>, r: seq<Transfer>, i: nat)
    requires 0 < |l| == |r| && i < |l|
    ensures CompareFrom(l, r, i + 1) == CompareFrom(l[1..], r[1..], i)
    decreases |l| - i
  {
    if i + 1 < |l| {
      CompareFromShift(l, r, i + 1);
    }
  }

  lemma CompareCons(l: seq<Transfer>, r: seq<Transfer>)
    requires 0 < |l| == |r|
    ensures Compare(l, r) ==
            if CompareEdge(l[0], r[0]) != 0 then CompareEdge(l[0], r[0]) else Compare(l[1..], r[1..])
  {
    CompareFromShift(l, r, 0);
  }

  /** Putting the same transfer into two lists keeps their order. */
  lemma {:induction false} InsertKeepsOrder(e: Transfer, x: seq<Transfer>, y: seq<Transfer>)
    requires |x| == |y| && Compare(x, y) <= 0
    ensures Compare(Insert(e, x, EdgeLe), Insert(e, y, EdgeLe)) <= 0
  {
    InsertMultiset(e, x, EdgeLe);
    InsertMultiset(e, y, EdgeLe);
    CompareCons(Insert(e, x, EdgeLe), Insert(e, y, EdgeLe));
    if x != [] {
      CompareCons(x, y);
      assert ([e] + x)[1..] == x && ([e] + y)[1..] == y;
      if CompareEdge(x[0], y[0]) == 0 {
        InsertKeepsOrder(e, x[1..], y[1..]);
        assert ([x[0]] + Insert(e, x[1..], EdgeLe))[1..] == Insert(e, x[1..], EdgeLe);
        assert ([y[0]] + Insert(e, y[1..], EdgeLe))[1..] == Insert(e, y[1..], EdgeLe);
      }
    }
  }

  /** Taking a transfer out of a sorted list and inserting it again changes no pair. */
  lemma {:induction false} ReinsertSamePairs(ts: seq<Transfer>, i: nat)
    requires i < |ts| && SortedBy(ts, EdgeLe)
    ensures Compare(Insert(ts[i], Without(ts, i), EdgeLe), ts) == 0
  {
    var e, rest := ts[i], Without(ts, i);
    InsertMultiset(e, rest, EdgeLe);
    CompareCons(Insert(e, rest, EdgeLe), ts);
    if i == 0 {
      assert rest == ts[1..];
      if rest != [] {
        assert EdgeLe(ts[0], ts[1]);
        assert ([e] + rest)[1..] == rest;
      }
      CompareOpposite(ts[1..], ts[1..]);
    } else {
      assert rest[0] == ts[0] && rest[1..] == Without(ts[1..], i - 1);
      assert EdgeLe(ts[0], e);
      if EdgeLe(e, rest[0]) {
        assert Insert(e, rest, EdgeLe) == [e] + rest;
        TieSamePairs(ts, i);
      } else {
        ReinsertSamePairs(ts[1..], i - 1);
        assert ([rest[0]] + Insert(e, rest[1..], EdgeLe))[1..] == Insert(e, rest[1..], EdgeLe);
      }
    }
  }

  /** Moving a transfer to the front past transfers of the same pair changes no pair. */
  lemma {:induction false} TieSamePairs(ts: seq<Transfer>, i: nat)
    requires i < |ts| && SortedBy(ts, EdgeLe) && EdgeLe(ts[i], ts[0])
    ensures Compare([ts[i]] + Without(ts, i), ts) == 0
  {
    var l := [ts[i]] + Without(ts, i);
    CompareCons(l, ts);
    assert l[1..] == Without(ts, i);
    if i == 0 {
      assert l == ts;
      CompareOpposite(ts, ts);
    } else {
      assert EdgeLe(ts[0], ts[i]) && EdgeLe(ts[0], ts[1]) && EdgeLe(ts[1], ts[i]);
      TieSamePairs(ts[1..], i - 1);
      var shifted := [ts[i]] + Without(ts[1..], i - 1);
      assert Without(ts, i)[1..] == Without(ts[1..], i - 1);
      CompareCons(Without(ts, i), ts[1..]);
      CompareCons(shifted, ts[1..]);
      assert shifted[1..] == Without(ts[1..], i - 1);
    }
  }

  /** A settlement as short as possible stays as short as possible without its leaf. */
  lemma LeafKeepsShortest(b: Balances, ts: seq<Transfer>) returns (v: nat, i: nat)
    requires Direct(b, ts) && Settles(b, ts) && |ts| == |Solve(b)| && ts != []
    ensures i < |ts| && v in Live(b) && Degree(ts, v) == 1 && Touches(ts[i], v)
    ensures Pair(b, ts[i].payer, ts[i].payee) && ts[i] == Cancel(b, ts[i].payer, ts[i].payee)
    ensures Settles(Pay(b, ts[i]), Without(ts, i)) && Direct(Pay(b, ts[i]), Without(ts, i))
    ensures |Without(ts, i)| == |Solve(Pay(b, ts[i]))|
  {
    SettledTotal(b, ts);
    SolveCorrect(b);
    v := FindLeaf(b, ts);
    i := TouchedIndex(ts, v);
    LeafIsCancel(b, ts, v, i);
    SolveIsShortest(Pay(b, ts[i]), Without(ts, i));
    SolveIsBest(b);
    assert Compare(Solve(b), Candidate(b, ts[i].payer, ts[i].payee)) <= 0;
    CandidateShape(b, ts[i].payer, ts[i].payee);
  }

  /** No shortest settlement of direct transfers comes before the search result in join order. */
  lemma {:induction false} SolveIsFirst(b: Balances, ts: seq<Transfer>)
    requires Direct(b, ts) && Settles(b, ts) && SortedBy(ts, EdgeLe) && |ts| == |Solve(b)|
    ensures Compare(Solve(b), ts) <= 0
    decreases |ts|
  {
    if ts != [] {
      var v, i := LeafKeepsShortest(b, ts);
      var e, rest := ts[i], Without(ts, i);
      SolveIsFirst(Pay(b, e), rest);
      SolveIsBest(b);
      var c := Candidate(b, e.payer, e.payee);
      CandidateInserts(b, e.payer, e.payee);
      InsertKeepsOrder(e, Solve(Pay(b, e)), rest);
      ReinsertSamePairs(ts, i);
      CompareTransitive(c, Insert(e, rest, EdgeLe), ts);
      assert Compare(Solve(b), c) <= 0;
      CompareTransitive(Solve(b), c, ts);
    }
  }

  ghost predicate SamePairs(xs: seq<Transfer>, ys: seq<Transfer>) {
    |xs| == |ys| && forall i | 0 <= i < |xs| :: CompareEdge(xs[i], ys[i]) == 0
  }

  lemma {:induction false} SameDegrees(xs: seq<Transfer>, ys: seq<Transfer>, v: nat)
    requires SamePairs(xs, ys)
    ensures Degree(xs, v) == Degree(ys, v)
  {
    if xs != [] {
      assert CompareEdge(xs[0], ys[0]) == 0;
      SameDegrees(xs[1..], ys[1..], v);
    }
  }

  lemma SameRest(xs: seq<Transfer>, ys: seq<Transfer>, i: nat)
    requires SamePairs(xs, ys) && i < |xs|
    ensures SamePairs(Without(xs, i), Without(ys, i))
    ensures xs[i] == ys[i] && Without(xs, i) == Without(ys, i) ==> xs == ys
  {
    forall k | 0 <= k < |xs| - 1 ensures CompareEdge(Without(xs, i)[k], Without(ys, i)[k]) == 0 {
      assert CompareEdge(xs[if k < i then k else k + 1], ys[if k < i then k else k + 1]) == 0;
    }
    assert xs == Without(xs, i)[..i] + [xs[i]] + Without(xs, i)[i..];
    assert ys == Without(ys, i)[..i] + [ys[i]] + Without(ys, i)[i..];
  }

  lemma {:induction false} TiedFromSamePairs(l: seq<Transfer>, r: seq<Transfer>, i: nat)
    requires |l| == |r| && i <= |l| && CompareFrom(l, r, i) == 0
    ensures forall k | i <= k < |l| :: CompareEdge(l[k], r[k]) == 0
    decreases |l| - i
  {
    if i < |l| {
      TiedFromSamePairs(l, r, i + 1);
    }
  }

  // ---- the support of the search result ----

  /** In every non-empty part of the list some position has a single transfer, so there is no cycle. */
  ghost predicate Forest(ts: seq<Transfer>) {
    forall part | PartOf(part, ts) :: HasEnd(part)
  }

  ghost predicate PartOf(part: set<Transfer>, ts: seq<Transfer>) {
    part != {} && forall t | t in part :: t in ts
  }

  ghost predicate HasEnd(part: set<Transfer>) {
    exists v: nat, t :: OnlyTouch(part, v, t)
  }

  ghost predicate OnlyTouch(part: set<Transfer>, v: nat, t: Transfer) {
    t in part && Touches(t, v) && forall t' | t' in part && t' != t :: !Touches(t', v)
  }

  ghost predicate DistinctPairs(ts: seq<Transfer>) {
    forall i, j | 0 <= i < j < |ts| :: CompareEdge(ts[i], ts[j]) != 0
  }

  lemma CancelledEnd(b: Balances, p: nat, q: nat, ts: seq<Transfer>) returns (v: nat)
    requires Pair(b, p, q) && Direct(Pay(b, Cancel(b, p, q)), ts)
    ensures v == p || v == q
    ensures forall t | t in ts :: !Touches(t, v)
  {
    var next := Pay(b, Cancel(b, p, q));
    v := if next[p] == 0 then p else q;
    forall t | t in ts ensures !Touches(t, v) {
      assert Pair(next, t.payer, t.payee);
    }
  }

  lemma {:induction false} SolveIsForest(b: Balances)
    requires Total(b) == 0
    ensures Forest(Solve(b))
    decreases Live(b)
  {
    hide *;
    if Solve(b) == [] {
      EmptyForest();
    } else {
      var p, q := BestPair(b);
      var e := Cancel(b, p, q);
      var rest := Solve(Pay(b, e));
      CancelShrinks(b, p, q);
      CandidateInserts(b, p, q);
      CancelKeepsTotal(b, p, q);
      SolveIsForest(Pay(b, e));
      SolveCorrect(Pay(b, e));
      var v := CancelledEnd(b, p, q, rest);
      CancelTouches(b, p, q);
      LeafGrows(rest, e, v, Solve(b));
    }
  }

  lemma EmptyForest()
    ensures Forest([])
  {
  }

  lemma CancelTouches(b: Balances, p: nat, q: nat)
    requires Pair(b, p, q)
    ensures Touches(Cancel(b, p, q), p) && Touches(Cancel(b, p, q), q)
  {
  }

  /** A transfer with an end nobody else touches keeps a forest. */
  lemma LeafGrows(rest: seq<Transfer>, e: Transfer, v: nat, ts: seq<Transfer>)
    requires Forest(rest) && Touches(e, v) && forall t | t in rest :: !Touches(t, v)
    requires multiset(ts) == multiset(rest) + multiset{e}
    ensures Forest(ts)
  {
    hide Touches;
    forall part | PartOf(part, ts) ensures HasEnd(part) {
      forall t | t in part ensures t == e || t in rest {
        assert t in multiset(ts);
      }
      if e in part {
        assert OnlyTouch(part, v, e);
      } else {
        assert PartOf(part, rest);
      }
    }
  }

  lemma {:induction false} InsertDistinct(e: Transfer, ts: seq<Transfer>)
    requires DistinctPairs(ts) && forall t | t in ts :: CompareEdge(e, t) != 0 && CompareEdge(t, e) != 0
    ensures DistinctPairs(Insert(e, ts, EdgeLe))
  {
    if ts != [] && !EdgeLe(e, ts[0]) {
      InsertDistinct(e, ts[1..]);
      var r := Insert(e, ts[1..], EdgeLe);
      InsertMultiset(e, ts[1..], EdgeLe);
      forall k | 0 <= k < |r| ensures CompareEdge(ts[0], r[k]) != 0 {
        assert r[k] in multiset(r);
        if r[k] != e {
          assert r[k] in ts[1..];
          var j :| 0 <= j < |ts[1..]| && ts[1..][j] == r[k];
          assert CompareEdge(ts[0], ts[j + 1]) != 0;
        }
      }
    }
  }

  lemma {:induction false} SolveDistinct(b: Balances)
    requires Total(b) == 0
    ensures DistinctPairs(Solve(b))
    decreases Live(b)
  {
    hide *;
    if Solve(b) == [] {
      NoPairs();
    } else {
      var p, q := BestPair(b);
      var e := Cancel(b, p, q);
      var rest := Pay(b, e);
      CancelShrinks(b, p, q);
      CandidateInserts(b, p, q);
      CancelKeepsTotal(b, p, q);
      SolveDistinct(rest);
      SolveCorrect(rest);
      var v := CancelledEnd(b, p, q, Solve(rest));
      OtherPairs(b, p, q, Solve(rest), v);
      InsertDistinct(e, Solve(rest));
    }
  }

  lemma NoPairs()
    ensures DistinctPairs([])
  {
  }

  /** A non-empty result is the candidate of some pair. */
  lemma BestPair(b: Balances) returns (p: nat, q: nat)
    requires Total(b) == 0 && Solve(b) != []
    ensures Pair(b, p, q) && InRange(Cancel(b, p, q), |b|) && Solve(b) == Candidate(b, p, q)
  {
    SolveCorrect(b);
    FirstIsPair(b, Solve(b));
    hide Solve, Candidate;
    SolveIsBest(b);
    p, q :| Pair(b, p, q) && Solve(b) == Candidate(b, p, q);
  }

  lemma FirstIsPair(b: Balances, ts: seq<Transfer>)
    requires Direct(b, ts) && ts != []
    ensures exists p, q :: Pair(b, p, q)
  {
    hide Pair;
    assert Pair(b, ts[0].payer, ts[0].payee);
  }

  lemma CancelKeepsTotal(b: Balances, p: nat, q: nat)
    requires Pair(b, p, q) && Total(b) == 0
    ensures Total(Pay(b, Cancel(b, p, q))) == 0
  {
    var e := Cancel(b, p, q);
    ZeroTotalIsOneBlock(b);
    PayKeepsBlocks(b, OneBlock(|b|), e);
    ZeroTotalIsOneBlock(Pay(b, e));
  }

  /** Once an end of the cancellation is out of reach, no other transfer has its pair. */
  lemma OtherPairs(b: Balances, p: nat, q: nat, ts: seq<Transfer>, v: nat)
    requires Pair(b, p, q) && (v == p || v == q) && forall t | t in ts :: !Touches(t, v)
    ensures forall t | t in ts ::
              CompareEdge(Cancel(b, p, q), t) != 0 && CompareEdge(t, Cancel(b, p, q)) != 0
  {
  }

  // ---- the pairs of a forest determine its amounts ----

  /** The transfer that alone touches an end of the whole list. */
  lemma ForestLeaf(b: Balances, ts: seq<Transfer>) returns (v: nat, i: nat)
    requires Direct(b, ts) && Forest(ts) && DistinctPairs(ts) && ts != []
    ensures i < |ts| && v < |b| && Touches(ts[i], v) && Degree(ts, v) == 1
  {
    var t;
    v, t := ForestEnd(ts);
    i :| 0 <= i < |ts| && ts[i] == t;
    assert Pair(b, t.payer, t.payee);
    forall x | x in Without(ts, i) ensures !Touches(x, v) {
      var k :| 0 <= k < |ts| && k != i && ts[k] == x;
      assert CompareEdge(ts[if k < i then k else i], ts[if k < i then i else k]) != 0;
      EdgeItself(t);
      assert x != t;
    }
    hide *;
    RemoveFromDegree(ts, i, v);
    NobodyTouches(Without(ts, i), v);
  }

  /** An end of the whole forest, and the only transfer that touches it. */
  lemma ForestEnd(ts: seq<Transfer>) returns (v: nat, t: Transfer)
    requires Forest(ts) && ts != []
    ensures t in ts && Touches(t, v) && forall x | x in ts && x != t :: !Touches(x, v)
  {
    hide Touches;
    var all := set t | t in ts;
    assert ts[0] in all && PartOf(all, ts);
    v, t :| OnlyTouch(all, v, t);
    assert forall x :: x in ts <==> x in all;
  }

  lemma EdgeItself(t: Transfer)
    ensures CompareEdge(t, t) == 0
  {
  }

  lemma {:induction false} NobodyTouches(ts: seq<Transfer>, v: nat)
    requires forall t | t in ts :: !Touches(t, v)
    ensures Degree(ts, v) == 0
  {
    if ts != [] {
      NobodyTouches(ts[1..], v);
    }
  }

  lemma ForestWithout(ts: seq<Transfer>, i: nat)
    requires Forest(ts) && DistinctPairs(ts) && i < |ts|
    ensures Forest(Without(ts, i)) && DistinctPairs(Without(ts, i))
  {
    var rest := Without(ts, i);
    forall part | PartOf(part, rest) ensures HasEnd(part) {
      assert PartOf(part, ts);
    }
    forall j, k | 0 <= j < k < |rest| ensures CompareEdge(rest[j], rest[k]) != 0 {
      assert CompareEdge(ts[if j < i then j else j + 1], ts[if k < i then k else k + 1]) != 0;
    }
  }

  /** Direct settlements over the same debtor-creditor pairs, a forest without repeated pairs, have the same amounts. */
  lemma {:induction false} PairsDetermineAmounts(b: Balances, xs: seq<Transfer>, ys: seq<Transfer>)
    requires Forest(xs) && DistinctPairs(xs) && SamePairs(xs, ys)
    requires Direct(b, xs) && Settles(b, xs) && Direct(b, ys) && Settles(b, ys)
    ensures xs == ys
    decreases |xs|
  {
    hide *;
    PairedLengths(xs, ys);
    if xs != [] {
      var v, i := ForestLeaf(b, xs);
      PairedEnds(xs, ys, i);
      SameDegrees(xs, ys, v);
      SameTouch(xs[i], ys[i], v);
      LeafIsCancel(b, xs, v, i);
      LeafIsCancel(b, ys, v, i);
      SameRest(xs, ys, i);
      ForestWithout(xs, i);
      PairInRange(b, xs[i]);
      PairsDetermineAmounts(Pay(b, xs[i]), Without(xs, i), Without(ys, i));
    }
  }

  lemma PairedLengths(xs: seq<Transfer>, ys: seq<Transfer>)
    requires SamePairs(xs, ys)
    ensures |xs| == |ys|
  {
  }

  lemma PairedEnds(xs: seq<Transfer>, ys: seq<Transfer>, i: nat)
    requires SamePairs(xs, ys) && i < |xs|
    ensures i < |ys| && xs[i].payer == ys[i].payer && xs[i].payee == ys[i].payee
  {
    assert CompareEdge(xs[i], ys[i]) == 0;
  }

  lemma PairInRange(b: Balances, t: Transfer)
    requires Pair(b, t.payer, t.payee)
    ensures InRange(t, |b|)
  {
  }

  lemma SameTouch(t: Transfer, u: Transfer, v: nat)
    requires t.payer == u.payer && t.payee == u.payee
    ensures Touches(t, v) == Touches(u, v)
  {
  }

  /** The search result is the only first one: a tie with it is equality, amounts included. */
  lemma SolveIsUnique(b: Balances, ts: seq<Transfer>)
    requires Direct(b, ts) && Settles(b, ts) && Compare(ts, Solve(b)) == 0
    ensures ts == Solve(b)
  {
    SettledTotal(b, ts);
    SolveCorrect(b);
    TiedFromSamePairs(ts, Solve(b), 0);
    forall i | 0 <= i < |ts| ensures CompareEdge(Solve(b)[i], ts[i]) == 0 {
      assert CompareEdge(ts[i], Solve(b)[i]) == 0;
    }
    SolveIsForest(b);
    SolveDistinct(b);
    PairsDetermineAmounts(b, Solve(b), ts);
  }
}
