/** Largest-remainder apportionment: what both allocators of the source promise, and why it fixes every share. */
module Apportionment {
  import opened Sequences

  /** One claimant: a weight, a place that breaks ties, and the whole units it was given. */
  datatype Portion = Portion(place: int, weight: int, share: int)

  function WeightOf(p: Portion): int { p.weight }
  function ShareOf(p: Portion): int { p.share }
  function PlaceOf(p: Portion): int { p.place }
  function Claim(p: Portion): (int, int) { (p.place, p.weight) }

  function Floor(amount: int, total: int, weight: int): int
    requires total > 0
  {
    amount * weight / total
  }

  function Remainder(amount: int, total: int, weight: int): int
    requires total > 0
  {
    amount * weight % total
  }

  /** Larger remainders come first; equal ones in the order of their places. */
  predicate Beats(amount: int, total: int, p: Portion, q: Portion)
    requires total > 0
  {
    var l, r := Remainder(amount, total, p.weight), Remainder(amount, total, q.weight);
    l > r || (l == r && p.place < q.place)
  }

  /**
   * The amount is given out exactly, everyone gets the floor of their quota or one more,
   * and whoever gets one more beats everyone who does not.
   */
  ghost predicate Apportioned(amount: int, total: int, ps: seq<Portion>)
    requires total > 0
  {
    && Sum(ps, ShareOf) == amount
    && (forall p | p in ps ::
        p.share == Floor(amount, total, p.weight) || p.share == Floor(amount, total, p.weight) + 1)
    && (forall p, q | p in ps && q in ps ::
          p.share > Floor(amount, total, p.weight) && q.share == Floor(amount, total, q.weight) ==>
            Beats(amount, total, p, q))
  }

  lemma FloorAndRemainder(amount: int, total: int, weight: int)
    requires total > 0
    ensures amount * weight == Floor(amount, total, weight) * total + Remainder(amount, total, weight)
    ensures 0 <= Remainder(amount, total, weight) < total
  {
  }

  function Slack(amount: int, total: int): Portion -> int {
    (p: Portion) => p.share * total - amount * p.weight
  }

  lemma {:induction false} SlackTotal(ps: seq<Portion>, amount: int, total: int)
    ensures Sum(ps, Slack(amount, total)) == Sum(ps, ShareOf) * total - amount * Sum(ps, WeightOf)
  {
    if ps != [] {
      SlackTotal(ps[1..], amount, total);
      var s, w := Sum(ps[1..], ShareOf), Sum(ps[1..], WeightOf);
      assert (ps[0].share + s) * total == ps[0].share * total + s * total;
      assert amount * (ps[0].weight + w) == amount * ps[0].weight + amount * w;
    }
  }

  lemma OneMore(n: int, total: int)
    ensures (n + 1) * total == n * total + total
  {
  }

  /** Whoever has no remainder, such as a claimant of weight zero, gets exactly the floor. */
  lemma NoRemainderNoExtra(amount: int, total: int, ps: seq<Portion>, p: Portion)
    requires total > 0 && Apportioned(amount, total, ps) && Sum(ps, WeightOf) == total
    requires p in ps && Remainder(amount, total, p.weight) == 0
    ensures p.share * total == amount * p.weight
  {
    FloorAndRemainder(amount, total, p.weight);
    if p.share > Floor(amount, total, p.weight) {
      forall q | q in ps ensures Slack(amount, total)(q) >= 0 {
        FloorAndRemainder(amount, total, q.weight);
        if q.share == Floor(amount, total, q.weight) {
          assert Beats(amount, total, p, q);
        } else {
          OneMore(Floor(amount, total, q.weight), total);
        }
      }
      SumNonNegative(ps, Slack(amount, total));
      SlackTotal(ps, amount, total);
      assert Slack(amount, total)(p) <= 0;
      OneMore(Floor(amount, total, p.weight), total);
    }
  }

  /** Every share is the floor or the ceiling of the exact quota `amount * weight / total`. */
  lemma FloorOrCeiling(amount: int, total: int, ps: seq<Portion>, p: Portion)
    requires total > 0 && Apportioned(amount, total, ps) && Sum(ps, WeightOf) == total && p in ps
    ensures -total < p.share * total - amount * p.weight < total
    ensures amount * p.weight % total == 0 ==> p.share * total == amount * p.weight
  {
    ShareIs(amount, total, ps, p);
    RemainderIs(amount, total, p.weight);
    hide *;
    FloorAndRemainder(amount, total, p.weight);
    if Remainder(amount, total, p.weight) == 0 {
      NoRemainderNoExtra(amount, total, ps, p);
    } else {
      OneMore(Floor(amount, total, p.weight), total);
    }
  }

  lemma ShareIs(amount: int, total: int, ps: seq<Portion>, p: Portion)
    requires total > 0 && Apportioned(amount, total, ps) && p in ps
    ensures p.share == Floor(amount, total, p.weight) || p.share == Floor(amount, total, p.weight) + 1
  {
    hide Floor, Beats, Sum;
  }

  lemma RemainderIs(amount: int, total: int, weight: int)
    requires total > 0
    ensures Remainder(amount, total, weight) == amount * weight % total
  {
  }

  /** Rearranging the claimants keeps an apportionment. */
  lemma ApportionedRearranged(amount: int, total: int, ps: seq<Portion>, qs: seq<Portion>)
    requires total > 0 && multiset(ps) == multiset(qs) && Apportioned(amount, total, ps)
    ensures Apportioned(amount, total, qs)
  {
    SumPermutation(ps, qs, ShareOf);
    SamePlaces(ps, qs);
  }

  lemma {:induction false} DominatedSum(ps: seq<Portion>, qs: seq<Portion>)
    requires |ps| == |qs| && forall k | 0 <= k < |ps| :: ps[k].share <= qs[k].share
    ensures Sum(ps, ShareOf) <= Sum(qs, ShareOf)
    ensures Sum(ps, ShareOf) == Sum(qs, ShareOf) ==> forall k | 0 <= k < |ps| :: ps[k].share == qs[k].share
  {
    if ps != [] {
      DominatedSum(ps[1..], qs[1..]);
      if Sum(ps, ShareOf) == Sum(qs, ShareOf) {
        forall k | 0 <= k < |ps| ensures ps[k].share == qs[k].share {
          assert k > 0 ==> ps[1..][k - 1] == ps[k] && qs[1..][k - 1] == qs[k];
        }
      }
    }
  }

  /** Claims with different places are apportioned in one way only. */
  lemma ApportionedUnique(amount: int, total: int, ps: seq<Portion>, qs: seq<Portion>)
    requires total > 0 && Apportioned(amount, total, ps) && Apportioned(amount, total, qs)
    requires |ps| == |qs| && forall k | 0 <= k < |ps| :: Claim(ps[k]) == Claim(qs[k])
    ensures ps == qs
  {
    if exists i :: 0 <= i < |ps| && ps[i].share < qs[i].share {
      var i :| 0 <= i < |ps| && ps[i].share < qs[i].share;
      if j :| 0 <= j < |ps| && qs[j].share < ps[j].share {
        Reversed(amount, total, ps, qs, i, j);
      } else {
        DominatedSum(ps, qs);
      }
    } else {
      DominatedSum(qs, ps);
    }
  }

  lemma Reversed(amount: int, total: int, ps: seq<Portion>, qs: seq<Portion>, i: nat, j: nat)
    requires total > 0 && Apportioned(amount, total, ps) && Apportioned(amount, total, qs)
    requires |ps| == |qs| && i < |ps| && j < |ps| && Claim(ps[i]) == Claim(qs[i]) && Claim(ps[j]) == Claim(qs[j])
    ensures ps[i].share < qs[i].share ==> ps[j].share <= qs[j].share
  {
    assert ps[i] in ps && ps[j] in ps && qs[i] in qs && qs[j] in qs;
    assert Beats(amount, total, qs[i], qs[j]) ==> !Beats(amount, total, ps[j], ps[i]);
  }

  // ---- how the amount is given out ----

  /** The claims in the order in which spare units are handed out. */
  ghost predicate Ranked(amount: int, total: int, ps: seq<Portion>)
    requires total > 0
  {
    && (forall p | p in ps :: p.share == Floor(amount, total, p.weight))
    && (forall i, j | 0 <= i < j < |ps| :: Beats(amount, total, ps[i], ps[j]))
  }

  function Spare(amount: int, ps: seq<Portion>): int {
    amount - Sum(ps, ShareOf)
  }

  lemma SpareIs(amount: int, ps: seq<Portion>)
    ensures Spare(amount, ps) == amount - Sum(ps, ShareOf)
  {
  }

  /** One unit more for the first `n`. */
  function Topped(ps: seq<Portion>, n: nat): (r: seq<Portion>)
    ensures |r| == |ps|
    ensures forall k | 0 <= k < |ps| :: r[k] == if k < n then ps[k].(share := ps[k].share + 1) else ps[k]
  {
    seq(|ps|, k requires 0 <= k < |ps| => if k < n then ps[k].(share := ps[k].share + 1) else ps[k])
  }

  function RemainderIn(amount: int, total: int): Portion -> int
    requires total > 0
  {
    (p: Portion) => Remainder(amount, total, p.weight)
  }

  lemma {:induction false} RemaindersAddUp(amount: int, total: int, ps: seq<Portion>)
    requires total > 0 && forall p | p in ps :: p.share == Floor(amount, total, p.weight)
    ensures Sum(ps, RemainderIn(amount, total)) == amount * Sum(ps, WeightOf) - Sum(ps, ShareOf) * total
  {
    hide Floor, Remainder;
    if ps != [] {
      RemaindersAddUp(amount, total, ps[1..]);
      FloorAndRemainder(amount, total, ps[0].weight);
      var r := Remainder(amount, total, ps[0].weight);
      RemainderStep(amount, total, ps[0].weight, ps[0].share, r, Sum(ps[1..], WeightOf), Sum(ps[1..], ShareOf));
    }
  }

  lemma RemainderStep(amount: int, total: int, weight: int, share: int, remainder: int, weights: int, shares: int)
    requires amount * weight == share * total + remainder
    ensures remainder + (amount * weights - shares * total) == amount * (weight + weights) - (share + shares) * total
  {
  }

  lemma {:induction false} RemaindersBounded(amount: int, total: int, ps: seq<Portion>)
    requires total > 0
    ensures 0 <= Sum(ps, RemainderIn(amount, total)) <= |ps| * total
    ensures ps != [] ==> Sum(ps, RemainderIn(amount, total)) < |ps| * total
  {
    if ps != [] {
      RemaindersBounded(amount, total, ps[1..]);
      FloorAndRemainder(amount, total, ps[0].weight);
      assert |ps| * total == |ps[1..]| * total + total;
    }
  }

  /** The claimants from `k` on have no remainder when the one at `k` has none. */
  lemma {:induction false} TailWithoutRemainder(amount: int, total: int, ps: seq<Portion>)
    requires total > 0 && forall p | p in ps :: Remainder(amount, total, p.weight) == 0
    ensures Sum(ps, RemainderIn(amount, total)) == 0
  {
    if ps != [] {
      TailWithoutRemainder(amount, total, ps[1..]);
    }
  }

  /** There are never more spare units than claimants with a remainder, so every unit finds its taker. */
  lemma SpareHasTakers(amount: int, total: int, ps: seq<Portion>)
    requires total > 0 && Ranked(amount, total, ps) && Sum(ps, WeightOf) == total
    ensures 0 <= Spare(amount, ps) <= |ps|
    ensures forall k | 0 <= k < Spare(amount, ps) :: Remainder(amount, total, ps[k].weight) > 0
  {
    var spare := Spare(amount, ps);
    RemaindersAddUp(amount, total, ps);
    RemaindersBounded(amount, total, ps);
    assert spare * total == Sum(ps, RemainderIn(amount, total)) by {
      assert (amount - Sum(ps, ShareOf)) * total == amount * total - Sum(ps, ShareOf) * total;
    }
    assert 0 <= spare <= |ps| by { Multiples(spare, |ps|, total); }
    forall k | 0 <= k < spare ensures Remainder(amount, total, ps[k].weight) > 0 {
      FloorAndRemainder(amount, total, ps[k].weight);
      if Remainder(amount, total, ps[k].weight) == 0 {
        EarlyTaker(amount, total, ps, k, spare);
      }
    }
  }

  lemma Multiples(n: int, m: nat, total: int)
    requires total > 0 && 0 <= n * total <= m * total
    ensures 0 <= n <= m
  {
    assert n < 0 ==> n * total < 0;
    assert n > m ==> n * total >= (m + 1) * total;
    OneMore(m, total);
  }

  lemma AtMost(n: int, m: nat, total: int)
    requires total > 0 && n * total <= m * total
    ensures n <= m
  {
    assert n > m ==> n * total >= (m + 1) * total;
    OneMore(m, total);
  }

  lemma NoLaterRemainder(amount: int, total: int, ps: seq<Portion>, k: nat)
    requires total > 0 && Ranked(amount, total, ps) && k < |ps| && Remainder(amount, total, ps[k].weight) == 0
    ensures forall p | p in ps[k..] :: Remainder(amount, total, p.weight) == 0
  {
    forall p | p in ps[k..] ensures Remainder(amount, total, p.weight) == 0 {
      var i :| k <= i < |ps| && ps[i] == p;
      FloorAndRemainder(amount, total, p.weight);
      assert k < i ==> Beats(amount, total, ps[k], ps[i]);
    }
  }

  lemma EarlyTaker(amount: int, total: int, ps: seq<Portion>, k: nat, spare: int)
    requires total > 0 && Ranked(amount, total, ps) && k < |ps| && Remainder(amount, total, ps[k].weight) == 0
    requires spare * total == Sum(ps, RemainderIn(amount, total))
    ensures spare <= k
  {
    hide *;
    NoLaterRemainder(amount, total, ps, k);
    TailWithoutRemainder(amount, total, ps[k..]);
    assert ps == ps[..k] + ps[k..];
    SumAppend(ps[..k], ps[k..], RemainderIn(amount, total));
    RemaindersBounded(amount, total, ps[..k]);
    assert |ps[..k]| == k;
    AtMost(spare, k, total);
  }

  lemma {:induction false} ToppedSum(ps: seq<Portion>, n: nat)
    requires n <= |ps|
    ensures Sum(Topped(ps, n), ShareOf) == Sum(ps, ShareOf) + n
  {
    if n > 0 {
      assert Topped(ps, n)[1..] == Topped(ps[1..], n - 1);
      ToppedSum(ps[1..], n - 1);
    } else {
      assert Topped(ps, 0) == ps;
    }
  }

  /** Handing the spare units to the best-ranked claimants is the apportionment. */
  lemma ToppedApportions(amount: int, total: int, ps: seq<Portion>)
    requires total > 0 && Ranked(amount, total, ps) && Sum(ps, WeightOf) == total
    ensures Spare(amount, ps) >= 0 && Apportioned(amount, total, Topped(ps, Spare(amount, ps)))
  {
    SpareHasTakers(amount, total, ps);
    var spare := Spare(amount, ps);
    ToppedSum(ps, spare);
    hide Floor, Beats, Sum, Topped;
    var qs := Topped(ps, spare);
    forall p | p in qs
      ensures p.share == Floor(amount, total, p.weight) || p.share == Floor(amount, total, p.weight) + 1
    {
      var i :| 0 <= i < |qs| && qs[i] == p;
      assert ps[i] in ps;
    }
    forall p, q | p in qs && q in qs && p.share > Floor(amount, total, p.weight) &&
      q.share == Floor(amount, total, q.weight)
      ensures Beats(amount, total, p, q)
    {
      var i :| 0 <= i < |qs| && qs[i] == p;
      var j :| 0 <= j < |qs| && qs[j] == q;
      assert ps[i] in ps && ps[j] in ps;
      ToppedBeat(amount, total, ps, spare, i, j);
    }
  }

  lemma ToppedBeat(amount: int, total: int, ps: seq<Portion>, spare: nat, i: nat, j: nat)
    requires total > 0 && Ranked(amount, total, ps) && i < |ps| && j < |ps|
    requires Topped(ps, spare)[i].share > Floor(amount, total, ps[i].weight)
    requires Topped(ps, spare)[j].share == Floor(amount, total, ps[j].weight)
    ensures Beats(amount, total, Topped(ps, spare)[i], Topped(ps, spare)[j])
  {
    hide Floor, Remainder, Topped;
    assert ps[i] in ps && ps[j] in ps;
    assert i < spare <= j;
    assert Beats(amount, total, ps[i], ps[j]);
  }
}
