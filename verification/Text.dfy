/** The textual checks on references, and the order of strings. */
module Text {

  /** The largest integer the source's numbers represent exactly. */
  const MAX_SAFE: int := 9007199254740991

  predicate Blank(c: char) {
    var n := c as int;
    (9 <= n <= 13) || n == 32 || n == 160 || n == 0x1680 || (0x2000 <= n <= 0x200A) ||
    n == 0x2028 || n == 0x2029 || n == 0x202F || n == 0x205F || n == 0x3000 || n == 0xFEFF
  }

  /** Something other than white space is left after trimming. */
  predicate Nonempty(s: string) {
    exists i :: 0 <= i < |s| && !Blank(s[i])
  }

  predicate LowerHex(c: char) {
    '0' <= c <= '9' || 'a' <= c <= 'f'
  }

  predicate CanonicalUuid(s: string) {
    |s| == 36 && forall i | 0 <= i < 36 ::
      if i == 8 || i == 13 || i == 18 || i == 23 then s[i] == '-' else LowerHex(s[i])
  }

  predicate SafeInteger(n: int) {
    -MAX_SAFE <= n <= MAX_SAFE
  }

  predicate StringLe(s: string, t: string) {
    s == "" || (t != "" && (Rank(s[0]) < Rank(t[0]) || (s[0] == t[0] && StringLe(s[1..], t[1..]))))
  }

  /**
   * Where a character stands in the order of UTF-16 code units: surrogate pairs, which start with 0xD800 to 0xDBFF,
   * come before the characters from 0xE000 on.
   */
  function Rank(c: char): int {
    var n := c as int;
    if n < 0xD800 then n else if n >= 0x10000 then n - 0x10000 + 0xD800 else n + 0x100000
  }

  lemma RankInjective(c: char, d: char)
    ensures Rank(c) == Rank(d) ==> c == d
  {
    assert c as int == d as int ==> c == d;
  }

  lemma {:induction false} StringLeTotal(s: string, t: string)
    ensures StringLe(s, t) || StringLe(t, s)
    ensures StringLe(s, t) && StringLe(t, s) ==> s == t
  {
    if s != "" && t != "" {
      RankInjective(s[0], t[0]);
    }
    if s != "" && t != "" && s[0] == t[0] {
      StringLeTotal(s[1..], t[1..]);
      assert s == [s[0]] + s[1..] && t == [t[0]] + t[1..];
    }
  }

  lemma {:induction false} StringLeTransitive(s: string, t: string, u: string)
    requires StringLe(s, t) && StringLe(t, u)
    ensures StringLe(s, u)
  {
    if s != "" && t != "" && u != "" {
      RankInjective(s[0], t[0]);
      RankInjective(t[0], u[0]);
    }
    if s != "" && s[0] == t[0] && t[0] == u[0] {
      StringLeTransitive(s[1..], t[1..], u[1..]);
    }
  }
}
