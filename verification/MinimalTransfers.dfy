/** Why the search result is a shortest settlement: blocks of positions that sum to zero bound both sides. */
module MinimalTransfers {
  import opened Sorting
  import opened Transfers

  /** A partition of the positions: two positions are in one block when their labels agree. */
  type Labels = seq<nat>

  function BlockSum(b: Balances, labels: Labels, l: nat, n: nat): int
    requires n <= |b| == |labels|
  {
    if n == 0 then 0
    else BlockSum(b, labels, l, n - 1) + (if labels[n - 1] == l then b[n - 1] else 0)
  }

  ghost predicate ZeroBlocks(b: Balances, labels: Labels) {
    |b| == |labels| && forall l: nat :: BlockSum(b, labels, l, |b|) == 0
  }

  /** The blocks in which some balance is still open. */
  function OpenBlocks(b: Balances, labels: Labels): set<nat>
    requires |b| == |labels|
  {
    set i | i in Live(b) :: labels[i]
  }

  lemma {:induction false} PayInBlock(b: Balances, labels: Labels, l: nat, t: Transfer, n: nat)
    requires n <= |b| == |labels| && InRange(t, |b|)
    ensures BlockSum(Pay(b, t), labels, l, n) == BlockSum(b, labels, l, n)
            + (if t.payer < n && labels[t.payer] == l then t.amount else 0)
            - (if t.payee < n && labels[t.payee] == l then t.amount else 0)
  {
    if n > 0 {
      PayInBlock(b, labels, l, t, n - 1);
      PayPointwise(b, t, n - 1);
    }
  }

  /** A transfer inside one block keeps every block sum. */
  lemma PayKeepsBlocks(b: Balances, labels: Labels, t: Transfer)
    requires ZeroBlocks(b, labels) && InRange(t, |b|) && labels[t.payer] == labels[t.payee]
    ensures ZeroBlocks(Pay(b, t), labels)
  {
    forall l: nat ensures BlockSum(Pay(b, t), labels, l, |b|) == 0 {
      PayInBlock(b, labels, l, t, |b|);
    }
  }

  lemma {:induction false} OneSignBlock(b: Balances, labels: Labels, l: nat, n: nat)
    requires n <= |b| == |labels|
    ensures (forall i | 0 <= i < n && labels[i] == l :: b[i] >= 0) ==>
              BlockSum(b, labels, l, n) >= 0 &&
              ((exists i :: 0 <= i < n && labels[i] == l && b[i] > 0) ==> BlockSum(b, labels, l, n) > 0)
    ensures (forall i | 0 <= i < n && labels[i] == l :: b[i] <= 0) ==>
              BlockSum(b, labels, l, n) <= 0 &&
              ((exists i :: 0 <= i < n && labels[i] == l && b[i] < 0) ==> BlockSum(b, labels, l, n) < 0)
  {
    if n > 0 {
      OneSignBlock(b, labels, l, n - 1);
    }
  }

  /** An open block that sums to zero holds a debtor and a creditor. */
  lemma OpenBlockHasPair(b: Balances, labels: Labels, i: nat) returns (p: nat, q: nat)
    requires ZeroBlocks(b, labels) && i in Live(b)
    ensures Pair(b, p, q) && labels[p] == labels[q] == labels[i]
  {
    OneSignBlock(b, labels, labels[i], |b|);
    assert BlockSum(b, labels, labels[i], |b|) == 0;
    p :| 0 <= p < |b| && labels[p] == labels[i] && b[p] < 0;
    q :| 0 <= q < |b| && labels[q] == labels[i] && b[q] > 0;
  }

  lemma {:induction false} SubsetSize<T>(a: set<T>, b: set<T>)
    requires a <= b
    ensures |a| <= |b| && (a != b ==> |a| < |b|)
  {
    assert b == a + (b - a);
    assert |b| == |a| + |b - a|;
    if a != b {
      var x :| x in b - a;
    }
  }

  /** A cancellation inside a block closes more positions than blocks. */
  lemma CancelGain(b: Balances, labels: Labels, p: nat, q: nat)
    requires |b| == |labels| && Pair(b, p, q) && labels[p] == labels[q]
    ensures |Live(Pay(b, Cancel(b, p, q)))| - |OpenBlocks(Pay(b, Cancel(b, p, q)), labels)|
            < |Live(b)| - |OpenBlocks(b, labels)|
  {
    CancelShrinks(b, p, q);
    PairLive(b, p, q);
    BlocksAre(b, labels);
    BlocksAre(Pay(b, Cancel(b, p, q)), labels);
    hide *;
    var next := Pay(b, Cancel(b, p, q));
    LabelsGain(Live(b), Live(next), labels, p, q, OpenBlocks(b, labels), OpenBlocks(next, labels));
  }

  lemma PairLive(b: Balances, p: nat, q: nat)
    requires Pair(b, p, q)
    ensures p in Live(b) && q in Live(b) && p != q && InRange(Cancel(b, p, q), |b|)
  {
  }

  ghost predicate Labelled(live: set<nat>, labels: Labels, blocks: set<nat>) {
    && (forall i | i in live :: i < |labels| && labels[i] in blocks)
    && forall l | l in blocks :: exists i :: i in live && i < |labels| && labels[i] == l
  }

  lemma BlocksAre(b: Balances, labels: Labels)
    requires |b| == |labels|
    ensures Labelled(Live(b), labels, OpenBlocks(b, labels))
  {
  }

  /** Of two positions of one block at least one closes: more positions are lost than blocks. */
  lemma LabelsGain(live: set<nat>, live': set<nat>, labels: Labels, p: nat, q: nat, blocks: set<nat>, blocks': set<nat>)
    requires Labelled(live, labels, blocks) && Labelled(live', labels, blocks')
    requires p in live && q in live && p != q && labels[p] == labels[q]
    requires live' < live && live <= live' + {p, q}
    ensures |live'| - |blocks'| < |live| - |blocks|
  {
    SubsetSize(live', live);
    forall l | l in blocks' ensures l in blocks {
      var i :| i in live' && i < |labels| && labels[i] == l;
    }
    forall l | l in blocks && l != labels[p] ensures l in blocks' {
      var i :| i in live && i < |labels| && labels[i] == l;
    }
    if labels[p] in blocks' {
      assert blocks == blocks';
    } else {
      assert p !in live' && q !in live';
      assert live == live' + {p, q};
      assert blocks == blocks' + {labels[p]};
    }
  }

  /** Upper bound: the search never needs more transfers than open positions minus open zero-sum blocks. */
  lemma {:induction false} SolveWithinBlocks(b: Balances, labels: Labels)
    requires ZeroBlocks(b, labels)
    ensures |Solve(b)| <= |Live(b)| - |OpenBlocks(b, labels)|
    decreases Live(b)
  {
    if AllZero(b) {
      assert Live(b) == {};
    } else {
      var i: nat :| i < |b| && b[i] != 0;
      var p, q := OpenBlockHasPair(b, labels, i);
      var e := Cancel(b, p, q);
      SolveIsBest(b);
      assert Compare(Solve(b), Candidate(b, p, q)) <= 0;
      CandidateShape(b, p, q);
      CancelShrinks(b, p, q);
      PayKeepsBlocks(b, labels, e);
      SolveWithinBlocks(Pay(b, e), labels);
      CancelGain(b, labels, p, q);
    }
  }

  // ---- lower bound: the blocks an arbitrary transfer list connects ----

  /** The partition into the parts that the transfers connect. */
  function Connected(ts: seq<Transfer>, n: nat): (r: Labels)
    requires forall t | t in ts :: InRange(t, n)
    ensures |r| == n
  {
    if ts == [] then seq(n, i requires 0 <= i < n => i)
    else
      var rest := Connected(ts[1..], n);
      assert InRange(ts[0], n);
      Joined(rest, rest[ts[0].payer], rest[ts[0].payee])
  }

  function Joined(labels: Labels, from: nat, to: nat): (r: Labels)
    ensures |r| == |labels|
  {
    seq(|labels|, i requires 0 <= i < |labels| => if labels[i] == from then to else labels[i])
  }

  ghost predicate Within(ts: seq<Transfer>, labels: Labels) {
    forall t | t in ts :: InRange(t, |labels|) && labels[t.payer] == labels[t.payee]
  }

  lemma {:induction false} ConnectedHoldsTransfers(ts: seq<Transfer>, n: nat)
    requires forall t | t in ts :: InRange(t, n)
    ensures Within(ts, Connected(ts, n))
  {
    if ts != [] {
      ConnectedHoldsTransfers(ts[1..], n);
      forall t | t in ts ensures Connected(ts, n)[t.payer] == Connected(ts, n)[t.payee] {
        assert t == ts[0] || t in ts[1..];
      }
    }
  }

  /** What settles a vector settles every block it never leaves. */
  lemma {:induction false} SettledBlocks(b: Balances, ts: seq<Transfer>, labels: Labels)
    requires |b| == |labels| && Settles(b, ts) && Within(ts, labels)
    ensures ZeroBlocks(b, labels)
    decreases |ts|
  {
    if ts == [] {
      forall l: nat ensures BlockSum(b, labels, l, |b|) == 0 {
        forall v: nat | v < |b| ensures b[v] == 0 {
          assert b[v] + Net(ts, v) == 0;
        }
        OneSignBlock(b, labels, l, |b|);
      }
    } else {
      assert ts == [ts[0]] + ts[1..];
      SettlesCons(b, ts[0], ts[1..]);
      SettledBlocks(Pay(b, ts[0]), ts[1..], labels);
      forall l: nat ensures BlockSum(b, labels, l, |b|) == 0 {
        PayInBlock(b, labels, l, ts[0], |b|);
        assert BlockSum(Pay(b, ts[0]), labels, l, |b|) == 0;
      }
    }
  }

  /** Each transfer connects at most two parts: `k` transfers leave all but `k` of the open positions apart. */
  lemma {:induction false} ConnectedParts(b: Balances, ts: seq<Transfer>)
    requires forall t | t in ts :: InRange(t, |b|)
    ensures |Live(b)| - |OpenBlocks(b, Connected(ts, |b|))| <= |ts|
  {
    if ts == [] {
      assert OpenBlocks(b, Connected(ts, |b|)) == Live(b);
    } else {
      ConnectedParts(b, ts[1..]);
      assert InRange(ts[0], |b|);
      var rest := Connected(ts[1..], |b|);
      var x, y := rest[ts[0].payer], rest[ts[0].payee];
      var before, after := OpenBlocks(b, rest), OpenBlocks(b, Joined(rest, x, y));
      forall l | l in before - {x} ensures l in after {
        var i :| i in Live(b) && rest[i] == l;
        assert Joined(rest, x, y)[i] == l;
      }
      SubsetSize(before - {x}, after);
    }
  }

  /** No transfer list that settles `b`, whatever its payers, payees and amounts, is shorter than the search result. */
  lemma SolveIsShortest(b: Balances, ts: seq<Transfer>)
    requires Settles(b, ts)
    ensures |Solve(b)| <= |ts|
  {
    var labels := Connected(ts, |b|);
    ConnectedHoldsTransfers(ts, |b|);
    SettledBlocks(b, ts, labels);
    SolveWithinBlocks(b, labels);
    ConnectedParts(b, ts);
  }

  // ---- the search result settles ----

  function OneBlock(n: nat): (r: Labels)
    ensures |r| == n && forall i | 0 <= i < n :: r[i] == 0
  {
    seq(n, i => 0)
  }

  lemma {:induction false} TotalSnoc(b: Balances, n: nat)
    requires n < |b|
    ensures Total(b[..n + 1]) == Total(b[..n]) + b[n]
    decreases n
  {
    if n > 0 {
      TotalSnoc(b[1..], n - 1);
      assert b[..n + 1][1..] == b[1..][..n] && b[..n][1..] == b[1..][..n - 1];
    } else {
      assert b[..1] == [b[0]];
    }
  }

  lemma {:induction false} OneBlockSum(b: Balances, l: nat, n: nat)
    requires n <= |b|
    ensures BlockSum(b, OneBlock(|b|), l, n) == if l == 0 then Total(b[..n]) else 0
  {
    if n > 0 {
      OneBlockSum(b, l, n - 1);
      TotalSnoc(b, n - 1);
    }
  }

  lemma ZeroTotalIsOneBlock(b: Balances)
    ensures Total(b) == 0 <==> ZeroBlocks(b, OneBlock(|b|))
  {
    forall l: nat ensures BlockSum(b, OneBlock(|b|), l, |b|) == if l == 0 then Total(b) else 0 {
      OneBlockSum(b, l, |b|);
      assert b[..|b|] == b;
    }
    assert BlockSum(b, OneBlock(|b|), 0, |b|) == Total(b);
  }

  lemma CandidateSettles(b: Balances, p: nat, q: nat)
    requires Pair(b, p, q)
    requires var next := Pay(b, Cancel(b, p, q)); Settles(next, Solve(next)) && Direct(next, Solve(next))
    ensures Settles(b, Candidate(b, p, q)) && Direct(b, Candidate(b, p, q))
  {
    var e := Cancel(b, p, q);
    var next := Pay(b, e);
    var rest := Solve(next);
    SettlesCons(b, e, rest);
    CandidateInserts(b, p, q);
    SettlesRearranged(b, [e] + rest, Candidate(b, p, q));
    forall t | t in Candidate(b, p, q) ensures Pair(b, t.payer, t.payee) && t.amount > 0 {
      assert t in multiset(Candidate(b, p, q));
      if t != e {
        assert t in rest;
        assert Pair(next, t.payer, t.payee);
      }
    }
  }

  lemma {:induction false} SolveSettles(b: Balances)
    requires ZeroBlocks(b, OneBlock(|b|))
    ensures Settles(b, Solve(b)) && Direct(b, Solve(b))
    ensures Solve(b) == [] <==> AllZero(b)
    decreases Live(b)
  {
    if !AllZero(b) {
      var i: nat :| i < |b| && b[i] != 0;
      var p0, q0 := OpenBlockHasPair(b, OneBlock(|b|), i);
      SolveIsBest(b);
      var p, q :| Pair(b, p, q) && Solve(b) == Candidate(b, p, q);
      CancelShrinks(b, p, q);
      PayKeepsBlocks(b, OneBlock(|b|), Cancel(b, p, q));
      SolveSettles(Pay(b, Cancel(b, p, q)));
      CandidateSettles(b, p, q);
      CandidateShape(b, p, q);
    }
  }

  /** Applied to any zero-sum vector the search settles it directly, and with fewer transfers than open balances. */
  lemma SolveCorrect(b: Balances)
    requires Total(b) == 0
    ensures Settles(b, Solve(b)) && Direct(b, Solve(b)) && SortedBy(Solve(b), EdgeLe)
    ensures Solve(b) == [] <==> AllZero(b)
    ensures !AllZero(b) ==> |Solve(b)| <= |Live(b)| - 1
  {
    ZeroTotalIsOneBlock(b);
    SolveSettles(b);
    SolveSorted(b);
    SolveWithinBlocks(b, OneBlock(|b|));
    if !AllZero(b) {
      var i: nat :| i < |b| && b[i] != 0;
      assert i in Live(b) && OneBlock(|b|)[i] in OpenBlocks(b, OneBlock(|b|));
    }
  }

  /** Only zero-sum vectors can be settled at all. */
  lemma SettledTotal(b: Balances, ts: seq<Transfer>)
    requires Settles(b, ts)
    ensures Total(b) == 0
  {
    SettledBlocks(b, ts, OneBlock(|b|));
    ZeroTotalIsOneBlock(b);
  }
}
