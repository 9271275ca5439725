/** Sums, keys and filters over sequences, and what rearranging the sequence leaves unchanged. */
module Sequences {
  import opened Outcomes
  import opened Sorting

  function Sum<T>(xs: seq<T>, f: T -> int): int {
    if xs == [] then 0 else f(xs[0]) + Sum(xs[1..], f)
  }

  function Map<T, U>(xs: seq<T>, f: T -> U): (r: seq<U>)
    ensures |r| == |xs| && forall i | 0 <= i < |xs| :: r[i] == f(xs[i])
  {
    seq(|xs|, i requires 0 <= i < |xs| => f(xs[i]))
  }

  function Filter<T(!new)>(xs: seq<T>, p: T -> bool): (r: seq<T>)
    ensures forall x :: x in r <==> x in xs && p(x)
  {
    if xs == [] then [] else (if p(xs[0]) then [xs[0]] else []) + Filter(xs[1..], p)
  }

  /** The position of the first element that satisfies the predicate. */
  function FirstWhere<T(!new)>(xs: seq<T>, p: T -> bool): (r: Option<nat>)
    ensures r.Some? ==> r.value < |xs| && p(xs[r.value])
    ensures r.None? ==> forall x | x in xs :: !p(x)
  {
    if xs == [] then None
    else if p(xs[0]) then Some(0)
    else match FirstWhere(xs[1..], p)
         case Some(k) => Some(k + 1)
         case None => None
  }

  /** The first element that satisfies the predicate. */
  function Find<T(!new)>(xs: seq<T>, p: T -> bool): (r: Option<T>)
    ensures r.Some? ==> r.value in xs && p(r.value)
    ensures r.None? ==> forall x | x in xs :: !p(x)
  {
    if xs == [] then None else if p(xs[0]) then Some(xs[0]) else Find(xs[1..], p)
  }

  ghost predicate DistinctBy<T, K>(xs: seq<T>, key: T -> K) {
    forall i, j | 0 <= i < j < |xs| :: key(xs[i]) != key(xs[j])
  }

  /** The list without the element at `i`. */
  function Without<T>(ts: seq<T>, i: nat): (r: seq<T>)
    requires i < |ts|
    ensures |r| == |ts| - 1
    ensures forall x | x in r :: x in ts
  {
    ts[..i] + ts[i + 1..]
  }

  lemma RemovedMultiset<T>(ts: seq<T>, i: nat)
    requires i < |ts|
    ensures multiset(Without(ts, i)) == multiset(ts) - multiset{ts[i]}
  {
    assert ts == ts[..i] + [ts[i]] + ts[i + 1..];
  }

  lemma {:induction false} SumAppend<T>(xs: seq<T>, ys: seq<T>, f: T -> int)
    ensures Sum(xs + ys, f) == Sum(xs, f) + Sum(ys, f)
  {
    if xs == [] {
      assert xs + ys == ys;
    } else {
      assert (xs + ys)[1..] == xs[1..] + ys;
      SumAppend(xs[1..], ys, f);
    }
  }

  lemma {:induction false} FilterAppend<T(!new)>(xs: seq<T>, x: T, p: T -> bool)
    ensures Filter(xs + [x], p) == Filter(xs, p) + if p(x) then [x] else []
  {
    if xs == [] {
      assert Filter([x], p) == (if p(x) then [x] else []) + Filter([], p);
    } else {
      assert (xs + [x])[1..] == xs[1..] + [x];
      FilterAppend(xs[1..], x, p);
    }
  }

  lemma FilterCons<T(!new)>(x: T, xs: seq<T>, p: T -> bool)
    ensures Filter([x] + xs, p) == (if p(x) then [x] else []) + Filter(xs, p)
  {
    assert ([x] + xs)[1..] == xs;
  }

  lemma MapCons<T, U>(x: T, xs: seq<T>, g: T -> U)
    ensures Map([x] + xs, g) == [g(x)] + Map(xs, g)
  {
  }

  lemma {:induction false} FilterMap<T(!new)>(xs: seq<T>, g: T -> T, p: T -> bool)
    requires forall x | x in xs :: p(g(x)) == p(x)
    ensures Filter(Map(xs, g), p) == Map(Filter(xs, p), g)
  {
    if xs != [] {
      var x, rest := xs[0], xs[1..];
      FilterMap(rest, g, p);
      hide Filter;
      assert xs == [x] + rest && x in xs;
      MapCons(x, rest, g);
      FilterCons(g(x), Map(rest, g), p);
      FilterCons(x, rest, p);
      MapCons(x, Filter(rest, p), g);
      assert [] + Filter(rest, p) == Filter(rest, p) && [] + Map(Filter(rest, p), g) == Map(Filter(rest, p), g);
    }
  }

  lemma SumSnoc<T>(xs: seq<T>, k: nat, f: T -> int)
    requires k < |xs|
    ensures Sum(xs[..k + 1], f) == Sum(xs[..k], f) + f(xs[k])
  {
    assert xs[..k + 1] == xs[..k] + [xs[k]];
    SumAppend(xs[..k], [xs[k]], f);
    assert Sum([xs[k]], f) == f(xs[k]) + Sum<T>([], f);
  }

  lemma SumUpdate<T>(xs: seq<T>, i: nat, x: T, f: T -> int)
    requires i < |xs|
    ensures Sum(xs[i := x], f) == Sum(xs, f) - f(xs[i]) + f(x)
  {
    assert xs == xs[..i] + ([xs[i]] + xs[i + 1..]);
    assert xs[i := x] == xs[..i] + ([x] + xs[i + 1..]);
    SumAppend(xs[..i], [xs[i]] + xs[i + 1..], f);
    SumAppend(xs[..i], [x] + xs[i + 1..], f);
  }

  lemma {:induction false} SumPermutation<T>(xs: seq<T>, ys: seq<T>, f: T -> int)
    requires multiset(xs) == multiset(ys)
    ensures Sum(xs, f) == Sum(ys, f)
  {
    assert |multiset(xs)| == |xs| && |multiset(ys)| == |ys|;
    if xs != [] {
      assert xs[0] in multiset(ys);
      var i :| 0 <= i < |ys| && ys[i] == xs[0];
      HeadRemoved(xs);
      assert ys == ys[..i] + ([ys[i]] + ys[i + 1..]);
      SumAppend(ys[..i], [ys[i]] + ys[i + 1..], f);
      SumAppend(ys[..i], ys[i + 1..], f);
      assert multiset(ys[..i] + ys[i + 1..]) == multiset(ys) - multiset{ys[i]};
      SumPermutation(xs[1..], ys[..i] + ys[i + 1..], f);
    }
  }

  lemma {:induction false} SumEqual<T>(xs: seq<T>, f: T -> int, g: T -> int)
    requires forall x | x in xs :: f(x) == g(x)
    ensures Sum(xs, f) == Sum(xs, g)
  {
    if xs != [] {
      SumEqual(xs[1..], f, g);
    }
  }

  lemma {:induction false} SumsAlike<T, U>(xs: seq<T>, ys: seq<U>, f: T -> int, g: U -> int)
    requires |xs| == |ys| && forall i | 0 <= i < |xs| :: f(xs[i]) == g(ys[i])
    ensures Sum(xs, f) == Sum(ys, g)
  {
    if xs != [] {
      SumsAlike(xs[1..], ys[1..], f, g);
    }
  }

  lemma {:induction false} SumNonNegative<T>(xs: seq<T>, f: T -> int)
    requires forall x | x in xs :: f(x) >= 0
    ensures Sum(xs, f) >= 0
    ensures forall x | x in xs :: f(x) <= Sum(xs, f)
  {
    if xs != [] {
      SumNonNegative(xs[1..], f);
    }
  }

  lemma {:induction false} SumMap<T, U>(xs: seq<T>, g: T -> U, f: U -> int, h: T -> int)
    requires forall x | x in xs :: f(g(x)) == h(x)
    ensures Sum(Map(xs, g), f) == Sum(xs, h)
  {
    if xs != [] {
      assert Map(xs, g)[1..] == Map(xs[1..], g);
      SumMap(xs[1..], g, f, h);
    }
  }

  lemma MapHead<T, U>(xs: seq<T>, f: T -> U)
    requires xs != []
    ensures multiset(Map(xs, f)) == multiset(Map(xs[1..], f)) + multiset{f(xs[0])}
  {
    assert Map(xs, f) == [f(xs[0])] + Map(xs[1..], f);
  }

  lemma {:induction false} MapWithout<T, U>(xs: seq<T>, i: nat, f: T -> U)
    requires i < |xs|
    ensures multiset(Map(xs, f)) == multiset(Map(Without(xs, i), f)) + multiset{f(xs[i])}
  {
    MapHead(xs, f);
    if i == 0 {
      assert Without(xs, 0) == xs[1..];
    } else {
      MapWithout(xs[1..], i - 1, f);
      assert Without(xs, i)[1..] == Without(xs[1..], i - 1);
      MapHead(Without(xs, i), f);
    }
  }

  lemma {:induction false} MapPermutation<T, U>(xs: seq<T>, ys: seq<T>, f: T -> U)
    requires multiset(xs) == multiset(ys)
    ensures multiset(Map(xs, f)) == multiset(Map(ys, f))
  {
    assert |multiset(xs)| == |xs| && |multiset(ys)| == |ys|;
    if xs != [] {
      assert xs[0] in multiset(ys);
      var i :| 0 <= i < |ys| && ys[i] == xs[0];
      HeadRemoved(xs);
      RemovedMultiset(ys, i);
      MapPermutation(xs[1..], Without(ys, i), f);
      MapWithout(ys, i, f);
      MapHead(xs, f);
    }
  }

  lemma SamePlaces<T>(xs: seq<T>, ys: seq<T>)
    requires multiset(xs) == multiset(ys)
    ensures |xs| == |ys| && forall x :: x in xs <==> x in ys
  {
    assert |multiset(xs)| == |xs| && |multiset(ys)| == |ys|;
    forall x ensures x in xs <==> x in ys {
      assert x in xs <==> x in multiset(xs);
      assert x in ys <==> x in multiset(ys);
    }
  }

  /** A sequence has distinct keys exactly when no element takes two of its places and no two elements share a key. */
  lemma {:induction false} DistinctByCounts<T, K>(xs: seq<T>, key: T -> K)
    ensures DistinctBy(xs, key) <==>
            (forall x | x in xs :: multiset(xs)[x] == 1) &&
            (forall x, y | x in xs && y in xs && key(x) == key(y) :: x == y)
  {
    if xs != [] {
      DistinctByCounts(xs[1..], key);
      HeadRemoved(xs);
      assert forall x :: x in xs <==> x == xs[0] || x in xs[1..];
      assert xs[0] in xs[1..] <==> multiset(xs[1..])[xs[0]] > 0;
      if DistinctBy(xs, key) {
        assert DistinctBy(xs[1..], key);
        assert forall y | y in xs[1..] :: key(xs[0]) != key(y);
      }
    }
  }

  /** Distinctness of keys survives rearrangement. */
  lemma DistinctByRearranged<T, K>(xs: seq<T>, ys: seq<T>, key: T -> K)
    requires multiset(xs) == multiset(ys) && DistinctBy(xs, key)
    ensures DistinctBy(ys, key)
  {
    SamePlaces(xs, ys);
    DistinctByCounts(xs, key);
    DistinctByCounts(ys, key);
  }

  /** Sequences with distinct keys and the same elements are rearrangements of one another. */
  lemma SameElements<T, K>(xs: seq<T>, ys: seq<T>, key: T -> K)
    requires DistinctBy(xs, key) && DistinctBy(ys, key) && forall x :: x in xs <==> x in ys
    ensures multiset(xs) == multiset(ys)
  {
    DistinctByCounts(xs, key);
    DistinctByCounts(ys, key);
    forall x ensures multiset(xs)[x] == multiset(ys)[x] {
      if x in xs {
        assert multiset(xs)[x] == 1 == multiset(ys)[x];
      } else {
        assert x !in multiset(xs) && x !in multiset(ys);
      }
    }
  }

  // ---- amounts attributed to keys ----

  /** What an element counts for one key: its weight when it carries the key, and nothing otherwise. */
  function Keyed<T, K(==)>(key: T -> K, weight: T -> int, k: K): T -> int {
    (x: T) => if key(x) == k then weight(x) else 0
  }

  function KeyedSum<T, K(==), B>(xs: seq<T>, key: T -> K, weight: T -> int, holder: B -> K): B -> int {
    (b: B) => Sum(xs, Keyed(key, weight, holder(b)))
  }

  function KeyedOne<T, K(==), B>(x: T, key: T -> K, weight: T -> int, holder: B -> K): B -> int {
    (b: B) => Keyed(key, weight, holder(b))(x)
  }

  lemma {:induction false} OneHolder<T, K, B>(bs: seq<B>, holder: B -> K, x: T, key: T -> K, weight: T -> int)
    requires DistinctBy(bs, holder)
    ensures Sum(bs, KeyedOne(x, key, weight, holder))
            == if exists b :: b in bs && holder(b) == key(x) then weight(x) else 0
  {
    if bs != [] {
      OneHolder(bs[1..], holder, x, key, weight);
      assert forall b :: b in bs <==> b == bs[0] || b in bs[1..];
      assert forall b | b in bs[1..] :: holder(bs[0]) != holder(b);
    }
  }

  lemma {:induction false} SumPlus<T>(xs: seq<T>, f: T -> int, g: T -> int, h: T -> int, sign: int)
    requires forall x | x in xs :: h(x) == f(x) + sign * g(x)
    ensures Sum(xs, h) == Sum(xs, f) + sign * Sum(xs, g)
  {
    if xs != [] {
      SumPlus(xs[1..], f, g, h, sign);
    }
  }

  /** When every key has a holder, the holders' totals add up to the whole. */
  lemma {:induction false} HoldersShareAll<T, K, B>(bs: seq<B>, holder: B -> K, xs: seq<T>, key: T -> K,
                                                    weight: T -> int)
    requires DistinctBy(bs, holder)
    requires forall x | x in xs :: exists b :: b in bs && holder(b) == key(x)
    ensures Sum(bs, KeyedSum(xs, key, weight, holder)) == Sum(xs, weight)
  {
    if xs == [] {
      SumEqual(bs, KeyedSum(xs, key, weight, holder), (b: B) => 0);
      SumZero(bs);
    } else {
      forall x | x in xs[1..] ensures exists b :: b in bs && holder(b) == key(x) {
        assert x in xs;
      }
      HoldersShareAll(bs, holder, xs[1..], key, weight);
      OneHolder(bs, holder, xs[0], key, weight);
      assert xs[0] in xs;
      SumPlus(bs, KeyedOne(xs[0], key, weight, holder), KeyedSum(xs[1..], key, weight, holder),
              KeyedSum(xs, key, weight, holder), 1);
    }
  }

  lemma {:induction false} SumZero<T>(xs: seq<T>)
    ensures Sum(xs, (x: T) => 0) == 0
  {
    if xs != [] {
      SumZero(xs[1..]);
      SumEqual(xs[1..], (x: T) => 0, (x: T) => 0);
    }
  }

  lemma {:induction false} KeyedAbsent<T, K>(xs: seq<T>, key: T -> K, weight: T -> int, k: K)
    requires forall x | x in xs :: key(x) != k
    ensures Sum(xs, Keyed(key, weight, k)) == 0
  {
    if xs != [] {
      KeyedAbsent(xs[1..], key, weight, k);
    }
  }

  lemma KeyedSnoc<T, K>(xs: seq<T>, x: T, key: T -> K, weight: T -> int, k: K)
    ensures Sum(xs + [x], Keyed(key, weight, k))
            == Sum(xs, Keyed(key, weight, k)) + (if key(x) == k then weight(x) else 0)
  {
    SumAppend(xs, [x], Keyed(key, weight, k));
    assert Sum([x], Keyed(key, weight, k)) == Keyed(key, weight, k)(x) + Sum<T>([], Keyed(key, weight, k));
  }

  lemma DistinctSnoc<T, K>(xs: seq<T>, x: T, key: T -> K)
    ensures DistinctBy(xs + [x], key) <==> DistinctBy(xs, key) && forall y | y in xs :: key(y) != key(x)
  {
    var r := xs + [x];
    forall y | y in xs ensures DistinctBy(r, key) ==> key(y) != key(x) {
      var i :| 0 <= i < |xs| && xs[i] == y;
      assert r[i] == y && r[|xs|] == x;
    }
    if DistinctBy(r, key) {
      forall i, j | 0 <= i < j < |xs| ensures key(xs[i]) != key(xs[j]) {
        assert key(r[i]) != key(r[j]);
      }
    }
  }

  lemma DistinctCons<T, K>(x: T, xs: seq<T>, key: T -> K)
    requires DistinctBy(xs, key) && forall y | y in xs :: key(x) != key(y)
    ensures DistinctBy([x] + xs, key)
  {
  }

  lemma {:induction false} FilterDistinctBy<T(!new), K>(xs: seq<T>, p: T -> bool, key: T -> K)
    requires DistinctBy(xs, key)
    ensures DistinctBy(Filter(xs, p), key)
  {
    if xs != [] {
      FilterDistinctBy(xs[1..], p, key);
      var rest := Filter(xs[1..], p);
      if p(xs[0]) {
        forall y | y in rest ensures key(xs[0]) != key(y) {
          var i :| 1 <= i < |xs| && xs[i] == y;
        }
        DistinctCons(xs[0], rest, key);
        assert Filter(xs, p) == [xs[0]] + rest;
      } else {
        assert Filter(xs, p) == rest;
      }
    }
  }

  function Itself(s: string): string {
    s
  }

  function Elements<T>(xs: seq<T>): set<T> {
    set x | x in xs
  }

  /** A sequence without repetitions has as many elements as places. */
  lemma {:induction false} DistinctElements<T>(xs: seq<T>)
    ensures |Elements(xs)| <= |xs|
    ensures (forall i, j | 0 <= i < j < |xs| :: xs[i] != xs[j]) ==> |Elements(xs)| == |xs|
  {
    if xs != [] {
      DistinctElements(xs[1..]);
      assert Elements(xs) == Elements(xs[1..]) + {xs[0]};
      if forall i, j | 0 <= i < j < |xs| :: xs[i] != xs[j] {
        assert xs[0] !in xs[1..];
      }
    }
  }

  lemma {:induction false} SubsetSmaller<T>(a: set<T>, b: set<T>)
    requires a <= b
    ensures |a| <= |b| && (|a| == |b| ==> a == b)
  {
    assert b == a + (b - a);
  }
}
