/** What the textual checks and the order of strings say, character by character. */
module TextRules {
  import opened Text

  // ---- white space and references ----

  /** White space and line ends, as trimming removes them. */
  predicate White(c: char) {
    c as int in {9, 10, 11, 12, 13, 32, 160, 0x1680, 0x2000, 0x2001, 0x2002, 0x2003, 0x2004, 0x2005, 0x2006, 0x2007,
                 0x2008, 0x2009, 0x200A, 0x2028, 0x2029, 0x202F, 0x205F, 0x3000, 0xFEFF}
  }

  predicate Written(s: string) {
    exists c :: c in s && !White(c)
  }

  /** 8, 4, 4, 4 and 12 lower-case hexadecimal digits with hyphens between. */
  predicate LowerUuid(s: string) {
    && |s| == 36 && s[8] == '-' && s[13] == '-' && s[18] == '-' && s[23] == '-'
    && forall i | 0 <= i < 36 && i != 8 && i != 13 && i != 18 && i != 23 :: s[i] in "0123456789abcdef"
  }

  lemma WhiteIs(c: char)
    ensures Blank(c) <==> White(c)
  {
  }

  lemma WrittenIs(s: string)
    ensures Nonempty(s) <==> Written(s)
  {
    forall c: char ensures Blank(c) <==> White(c) {
      WhiteIs(c);
    }
    hide Blank, White;
    if Nonempty(s) {
      var i :| 0 <= i < |s| && !Blank(s[i]);
      assert s[i] in s;
    }
  }

  lemma HexIs(c: char)
    ensures LowerHex(c) <==> c in "0123456789abcdef"
  {
    assert "0123456789abcdef" == ['0', '1', '2', '3', '4', '5', '6', '7', '8', '9', 'a', 'b', 'c', 'd', 'e', 'f'];
  }

  lemma LowerUuidIs(s: string)
    ensures CanonicalUuid(s) <==> LowerUuid(s)
  {
    forall c: char ensures LowerHex(c) <==> c in "0123456789abcdef" {
      HexIs(c);
    }
    hide LowerHex;
  }

  // ---- the order of strings ----

  /** The UTF-16 code units of a character. */
  function Units(c: char): (r: seq<int>)
    ensures |r| >= 1
  {
    var n := c as int;
    if n < 0x10000 then [n] else [0xD800 + (n - 0x10000) / 0x400, 0xDC00 + (n - 0x10000) % 0x400]
  }

  function UnitsOf(s: string): seq<int> {
    if s == "" then [] else Units(s[0]) + UnitsOf(s[1..])
  }

  /** `xs` begins `ys`, or has the smaller unit where they first differ. */
  ghost predicate UnitsLe(xs: seq<int>, ys: seq<int>) {
    || xs <= ys
    || exists k :: 0 <= k < |xs| && k < |ys| && xs[..k] == ys[..k] && xs[k] < ys[k]
  }

  lemma UnitsCompare(c: char, d: char, xs: seq<int>, ys: seq<int>)
    requires c != d
    ensures UnitsLe(Units(c) + xs, Units(d) + ys) <==> Rank(c) < Rank(d)
  {
    var l, r := Units(c) + xs, Units(d) + ys;
    assert c as int != d as int;
    if l[0] == r[0] {
      SameHead(c, d);
      assert l[..1] == r[..1] && l[1] == Units(c)[1] && r[1] == Units(d)[1];
      Decided(l, r, 1);
    } else {
      assert l[..0] == r[..0];
      Decided(l, r, 0);
      DifferentHead(c, d);
    }
  }

  /** Only the second units of two surrogate pairs can decide after equal first units. */
  lemma SameHead(c: char, d: char)
    requires c as int != d as int && Units(c)[0] == Units(d)[0]
    ensures |Units(c)| == 2 && |Units(d)| == 2 && Units(c)[1] != Units(d)[1]
    ensures Units(c)[1] < Units(d)[1] <==> Rank(c) < Rank(d)
  {
  }

  lemma DifferentHead(c: char, d: char)
    requires Units(c)[0] != Units(d)[0]
    ensures Units(c)[0] < Units(d)[0] <==> Rank(c) < Rank(d)
  {
  }

  lemma Decided(xs: seq<int>, ys: seq<int>, k: nat)
    requires k < |xs| && k < |ys| && xs[..k] == ys[..k] && xs[k] != ys[k]
    ensures UnitsLe(xs, ys) <==> xs[k] < ys[k]
  {
    assert forall i | 0 <= i < k :: xs[i] == xs[..k][i] == ys[..k][i] == ys[i];
    if j :| 0 <= j < |xs| && j < |ys| && xs[..j] == ys[..j] && xs[j] < ys[j] {
      assert forall i | 0 <= i < j :: xs[i] == xs[..j][i] == ys[..j][i] == ys[i];
    }
  }

  ghost predicate SmallerAt(xs: seq<int>, ys: seq<int>, k: nat) {
    k < |xs| && k < |ys| && xs[..k] == ys[..k] && xs[k] < ys[k]
  }

  lemma SmallerPast(u: int, xs: seq<int>, ys: seq<int>, k: nat)
    ensures SmallerAt([u] + xs, [u] + ys, k + 1) <==> SmallerAt(xs, ys, k)
  {
    if k < |xs| && k < |ys| {
      assert ([u] + xs)[..k + 1] == [u] + xs[..k] && ([u] + ys)[..k + 1] == [u] + ys[..k];
      assert ([u] + xs[..k])[1..] == xs[..k] && ([u] + ys[..k])[1..] == ys[..k];
    }
  }

  lemma PrefixPast(u: int, xs: seq<int>, ys: seq<int>)
    ensures [u] + xs <= [u] + ys <==> xs <= ys
  {
    if [u] + xs <= [u] + ys {
      assert forall i | 0 <= i < |xs| :: xs[i] == ([u] + xs)[i + 1] == ([u] + ys)[i + 1] == ys[i];
    }
  }

  lemma UnitPast(u: int, xs: seq<int>, ys: seq<int>)
    ensures UnitsLe([u] + xs, [u] + ys) <==> UnitsLe(xs, ys)
  {
    PrefixPast(u, xs, ys);
    SmallerSays(xs, ys);
    SmallerSays([u] + xs, [u] + ys);
    if k: nat :| SmallerAt([u] + xs, [u] + ys, k) {
      assert k > 0;
      SmallerPast(u, xs, ys, k - 1);
    }
    if k: nat :| SmallerAt(xs, ys, k) {
      SmallerPast(u, xs, ys, k);
    }
    hide SmallerAt, UnitsLe;
  }

  lemma SmallerSays(xs: seq<int>, ys: seq<int>)
    ensures UnitsLe(xs, ys) <==> xs <= ys || exists k: nat :: SmallerAt(xs, ys, k)
  {
    if UnitsLe(xs, ys) && !(xs <= ys) {
      var k :| 0 <= k < |xs| && k < |ys| && xs[..k] == ys[..k] && xs[k] < ys[k];
      assert SmallerAt(xs, ys, k);
    }
  }

  lemma UnitsPast(c: char, xs: seq<int>, ys: seq<int>)
    ensures UnitsLe(Units(c) + xs, Units(c) + ys) <==> UnitsLe(xs, ys)
  {
    hide UnitsLe;
    var u := Units(c);
    if |u| == 1 {
      UnitPast(u[0], xs, ys);
      assert u == [u[0]];
    } else {
      UnitPast(u[0], [u[1]] + xs, [u[1]] + ys);
      UnitPast(u[1], xs, ys);
      assert u + xs == [u[0]] + ([u[1]] + xs) && u + ys == [u[0]] + ([u[1]] + ys);
    }
  }

  /** Strings are ordered by their UTF-16 code units. */
  lemma {:induction false} StringOrder(s: string, t: string)
    ensures StringLe(s, t) <==> UnitsLe(UnitsOf(s), UnitsOf(t))
  {
    if s != "" && t != "" {
      if s[0] == t[0] {
        StringOrder(s[1..], t[1..]);
        UnitsPast(s[0], UnitsOf(s[1..]), UnitsOf(t[1..]));
      } else {
        RankInjective(s[0], t[0]);
        UnitsCompare(s[0], t[0], UnitsOf(s[1..]), UnitsOf(t[1..]));
      }
    }
  }
}
