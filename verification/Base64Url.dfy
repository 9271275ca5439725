/** The 43-character form of 32 secret bytes: sections 3.5 and 5 of RFC 4648, without padding. */
module Base64Url {
  import opened Outcomes

  // ---- numerals ----

  function Pow(base: nat, n: nat): (r: nat)
    requires base >= 1
    ensures r >= 1
  {
    if n == 0 then 1 else base * Pow(base, n - 1)
  }

  ghost predicate Digits(ds: seq<int>, base: nat) {
    forall i | 0 <= i < |ds| :: 0 <= ds[i] < base
  }

  /** The number a digit string stands for, most significant digit first. */
  function Numeral(ds: seq<int>, base: nat): int {
    if ds == [] then 0 else Numeral(ds[..|ds| - 1], base) * base + ds[|ds| - 1]
  }

  lemma NumeralSnoc(ds: seq<int>, d: int, base: nat)
    ensures Numeral(ds + [d], base) == Numeral(ds, base) * base + d
  {
    assert (ds + [d])[..|ds|] == ds;
  }

  lemma {:induction false} NumeralAppend(xs: seq<int>, ys: seq<int>, base: nat)
    requires base >= 1
    ensures Numeral(xs + ys, base) == Numeral(xs, base) * Pow(base, |ys|) + Numeral(ys, base)
  {
    if ys == [] {
      assert xs + ys == xs;
    } else {
      var init, last := ys[..|ys| - 1], ys[|ys| - 1];
      assert xs + ys == (xs + init) + [last];
      NumeralAppend(xs, init, base);
      NumeralSnoc(xs + init, last, base);
      assert Pow(base, |ys|) == base * Pow(base, |init|);
      Shift(Numeral(xs, base), Pow(base, |init|), Numeral(init, base), base);
    }
  }

  lemma Shift(n: int, p: int, m: int, base: int)
    ensures (n * p + m) * base == n * (base * p) + m * base
  {
  }

  lemma {:induction false} NumeralBounded(ds: seq<int>, base: nat)
    requires base >= 1 && Digits(ds, base)
    ensures 0 <= Numeral(ds, base) < Pow(base, |ds|)
  {
    if ds != [] {
      var init, last := ds[..|ds| - 1], ds[|ds| - 1];
      NumeralBounded(init, base);
      assert 0 <= last < base;
      OneDigitMore(Numeral(init, base), last, base, Pow(base, |init|));
    }
  }

  lemma Product(a: int, b: int)
    requires a >= 0 && b >= 0
    ensures a * b >= 0
  {
  }

  lemma OneDigitMore(n: int, d: int, base: int, p: int)
    requires 0 <= n < p && 0 <= d < base
    ensures 0 <= n * base + d < base * p
  {
    Product(n, base);
    var k := p - n - 1;
    Product(k, base);
    calc {
      base * p;
      == { assert p == k + n + 1; }
      base * (k + n + 1);
      ==
      k * base + n * base + base;
    }
  }

  /** Digit strings of one length that stand for the same number are the same. */
  lemma {:induction false} NumeralInjective(xs: seq<int>, ys: seq<int>, base: nat)
    requires base >= 1 && Digits(xs, base) && Digits(ys, base) && |xs| == |ys| && Numeral(xs, base) == Numeral(ys, base)
    ensures xs == ys
  {
    if xs != [] {
      var x, y := xs[..|xs| - 1], ys[..|ys| - 1];
      SameQuotient(Numeral(x, base), Numeral(y, base), xs[|xs| - 1], ys[|ys| - 1], base);
      NumeralInjective(x, y, base);
      assert xs == x + [xs[|xs| - 1]] && ys == y + [ys[|ys| - 1]];
    }
  }

  lemma SameQuotient(m: int, n: int, c: int, d: int, base: nat)
    requires 0 <= c < base && 0 <= d < base && m * base + c == n * base + d
    ensures m == n && c == d
  {
    var k := m - n;
    assert k * base == m * base - n * base;
    assert (-k) * base == -(k * base);
    if k >= 1 {
      Grows(k, base);
    } else if k <= -1 {
      Grows(-k, base);
    }
  }

  lemma Grows(k: int, base: int)
    requires k >= 1 && base >= 0
    ensures k * base >= base
  {
    assert (k - 1) * base >= 0;
    assert (k - 1) * base == k * base - base;
  }

  // ---- the alphabet ----

  /** The value of a character of the URL-safe alphabet, and -1 for any other. */
  function IndexOf(c: char): int {
    if 'A' <= c <= 'Z' then c as int - 'A' as int
    else if 'a' <= c <= 'z' then 26 + (c as int - 'a' as int)
    else if '0' <= c <= '9' then 52 + (c as int - '0' as int)
    else if c == '-' then 62
    else if c == '_' then 63
    else -1
  }

  function Letter(n: int): char
    requires 0 <= n < 64
  {
    if n < 26 then ('A' as int + n) as char
    else if n < 52 then ('a' as int + (n - 26)) as char
    else if n < 62 then ('0' as int + (n - 52)) as char
    else if n == 62 then '-'
    else '_'
  }

  lemma AlphabetMatches(n: int, c: char)
    ensures 0 <= n < 64 ==> IndexOf(Letter(n)) == n
    ensures 0 <= IndexOf(c) < 64 ==> Letter(IndexOf(c)) == c
    ensures -1 <= IndexOf(c) < 64
  {
  }

  function Indices(s: string): (ds: seq<int>)
    ensures |ds| == |s| && forall i | 0 <= i < |s| :: ds[i] == IndexOf(s[i])
  {
    seq(|s|, i requires 0 <= i < |s| => IndexOf(s[i]))
  }

  predicate InAlphabet(c: char) {
    IndexOf(c) >= 0
  }

  /** The characters that may end the string: those whose last two bits are zero. */
  predicate MayEnd(c: char) {
    c in "AEIMQUYcgkosw048"
  }

  predicate Accepted(s: string) {
    |s| == 43 && (forall i | 0 <= i < 42 :: InAlphabet(s[i])) && MayEnd(s[42])
  }

  lemma MayEndMeans(c: char)
    ensures MayEnd(c) <==> IndexOf(c) >= 0 && IndexOf(c) % 4 == 0
  {
  }

  // ---- encoding, three bytes at a time ----

  function Sextets(bytes: seq<int>): seq<int>
    requires Digits(bytes, 256)
  {
    if |bytes| >= 3 then
      [bytes[0] / 4, bytes[0] % 4 * 16 + bytes[1] / 16, bytes[1] % 16 * 4 + bytes[2] / 64,
       bytes[2] % 64] + Sextets(bytes[3..])
    else if |bytes| == 2 then [bytes[0] / 4, bytes[0] % 4 * 16 + bytes[1] / 16, bytes[1] % 16 * 4]
    else if |bytes| == 1 then [bytes[0] / 4, bytes[0] % 4 * 16]
    else []
  }

  lemma {:induction false} SextetsAreDigits(bytes: seq<int>)
    requires Digits(bytes, 256) && |bytes| % 3 == 2
    ensures Digits(Sextets(bytes), 64) && |Sextets(bytes)| == |bytes| / 3 * 4 + 3
    ensures Sextets(bytes)[|Sextets(bytes)| - 1] % 4 == 0
  {
    if |bytes| >= 3 {
      var rest := Sextets(bytes[3..]);
      SextetsAreDigits(bytes[3..]);
      GroupDigits(bytes[0], bytes[1], bytes[2]);
      assert |Sextets(bytes)| == 4 + |rest| && forall i | 4 <= i < |Sextets(bytes)| :: Sextets(bytes)[i] == rest[i - 4];
    } else {
      GroupDigits(bytes[0], bytes[1], 0);
    }
  }

  lemma GroupDigits(a: int, b: int, c: int)
    requires 0 <= a < 256 && 0 <= b < 256 && 0 <= c < 256
    ensures 0 <= a / 4 < 64 && 0 <= a % 4 * 16 + b / 16 < 64 && 0 <= b % 16 * 4 + c / 64 < 64 && 0 <= c % 64 < 64
    ensures 0 <= b % 16 * 4 < 64 && b % 16 * 4 % 4 == 0
  {
  }

  function Encode(bytes: seq<int>): (s: string)
    requires Digits(bytes, 256) && |bytes| == 32
  {
    SextetsAreDigits(bytes);
    seq(43, i requires 0 <= i < 43 => Letter(Sextets(bytes)[i]))
  }

  lemma Quantum(a: int, b: int, c: int)
    requires 0 <= a < 256 && 0 <= b < 256 && 0 <= c < 256
    ensures ((a / 4 * 64 + (a % 4 * 16 + b / 16)) * 64 + (b % 16 * 4 + c / 64)) * 64 + c % 64 == (a * 256 + b) * 256 + c
    ensures (a / 4 * 64 + (a % 4 * 16 + b / 16)) * 64 + b % 16 * 4 == (a * 256 + b) * 4
  {
  }

  lemma NumeralOf4(a: int, b: int, c: int, d: int, base: nat)
    ensures Numeral([a, b, c, d], base) == ((a * base + b) * base + c) * base + d
    ensures Numeral([a, b, c], base) == (a * base + b) * base + c
    ensures Numeral([a, b], base) == a * base + b
  {
    assert Numeral([a], base) == Numeral([], base) * base + a by { assert [a][..0] == []; }
    NumeralSnoc([a], b, base);
    assert [a] + [b] == [a, b];
    NumeralSnoc([a, b], c, base);
    assert [a, b] + [c] == [a, b, c];
    NumeralSnoc([a, b, c], d, base);
    assert [a, b, c] + [d] == [a, b, c, d];
  }

  lemma Pow4(base: nat)
    requires base >= 1
    ensures Pow(base, 4) == base * (base * (base * base)) && Pow(base, 3) == base * (base * base) &&
            Pow(base, 2) == base * base
  {
    assert Pow(base, 1) == base * Pow(base, 0);
    assert Pow(base, 2) == base * Pow(base, 1);
    assert Pow(base, 3) == base * Pow(base, 2);
    assert Pow(base, 4) == base * Pow(base, 3);
  }

  lemma {:induction false} PowersMeet(k: nat)
    ensures Pow(64, 4 * k + 3) == 4 * Pow(256, 3 * k + 2)
  {
    if k == 0 {
      Pow4(64);
      Pow4(256);
    } else {
      PowersMeet(k - 1);
      PowerSteps(64, 4 * (k - 1) + 3);
      PowerSteps(256, 3 * (k - 1) + 2);
    }
  }

  lemma PowerSteps(base: nat, n: nat)
    requires base >= 1
    ensures Pow(base, n + 3) == base * base * base * Pow(base, n)
    ensures Pow(base, n + 4) == base * base * base * base * Pow(base, n)
  {
    hide *;
    PowerStep(base, n);
    PowerStep(base, n + 1);
    PowerStep(base, n + 2);
    PowerStep(base, n + 3);
    Regroup(base, Pow(base, n));
  }

  lemma PowerStep(base: nat, n: nat)
    requires base >= 1
    ensures Pow(base, n + 1) == base * Pow(base, n)
  {
  }

  lemma Regroup(b: int, n: int)
    ensures b * (b * (b * n)) == b * b * b * n
    ensures b * (b * (b * (b * n))) == b * b * b * b * n
  {
    Associate(b, b, n);
    Associate(b, b * b, n);
    Associate(b, b * b * b, n);
  }

  lemma Associate(a: int, b: int, n: int)
    ensures a * (b * n) == (b * a) * n == (a * b) * n
  {
  }

  /** The sextets stand for the bytes' number with two zero bits appended. */
  lemma {:induction false} SextetsStandFor(bytes: seq<int>)
    requires Digits(bytes, 256) && |bytes| % 3 == 2
    ensures Numeral(Sextets(bytes), 64) == 4 * Numeral(bytes, 256)
    decreases |bytes|, 1
  {
    if |bytes| == 2 {
      NumeralOf4(bytes[0] / 4, bytes[0] % 4 * 16 + bytes[1] / 16, bytes[1] % 16 * 4, 0, 64);
      NumeralOf4(bytes[0], bytes[1], 0, 0, 256);
      assert bytes == [bytes[0], bytes[1]];
      Quantum(bytes[0], bytes[1], 0);
    } else {
      GroupStandsFor(bytes);
    }
  }

  lemma {:induction false} GroupStandsFor(bytes: seq<int>)
    requires Digits(bytes, 256) && |bytes| % 3 == 2 && |bytes| >= 3
    ensures Numeral(Sextets(bytes), 64) == 4 * Numeral(bytes, 256)
    decreases |bytes|, 0
  {
    var rest := bytes[3..];
    SextetsStandFor(rest);
    SextetsAreDigits(rest);
    FirstGroup(bytes[0], bytes[1], bytes[2], rest, bytes);
  }

  function HeadSextets(a: int, b: int, c: int): seq<int> {
    [a / 4, a % 4 * 16 + b / 16, b % 16 * 4 + c / 64, c % 64]
  }

  lemma HeadStandsFor(a: int, b: int, c: int)
    requires 0 <= a < 256 && 0 <= b < 256 && 0 <= c < 256
    ensures Numeral(HeadSextets(a, b, c), 64) == Numeral([a, b, c], 256)
  {
    NumeralOf4(a / 4, a % 4 * 16 + b / 16, b % 16 * 4 + c / 64, c % 64, 64);
    NumeralOf4(a, b, c, 0, 256);
    Quantum(a, b, c);
  }

  lemma SextetsSplit(a: int, b: int, c: int, rest: seq<int>, bytes: seq<int>)
    requires Digits(bytes, 256) && Digits(rest, 256) && bytes == [a, b, c] + rest
    ensures Sextets(bytes) == HeadSextets(a, b, c) + Sextets(rest)
  {
    assert bytes[3..] == rest;
  }

  lemma FirstGroup(a: int, b: int, c: int, rest: seq<int>, bytes: seq<int>)
    requires Digits(bytes, 256) && Digits(rest, 256) && bytes == [a, b, c] + rest && |rest| % 3 == 2
    requires 0 <= a < 256 && 0 <= b < 256 && 0 <= c < 256
    requires Numeral(Sextets(rest), 64) == 4 * Numeral(rest, 256) && |Sextets(rest)| == |rest| / 3 * 4 + 3
    ensures Numeral(Sextets(bytes), 64) == 4 * Numeral(bytes, 256)
  {
    hide Numeral, Sextets, Digits, Pow, HeadSextets;
    var k := |rest| / 3;
    SextetsSplit(a, b, c, rest, bytes);
    HeadStandsFor(a, b, c);
    NumeralAppend([a, b, c], rest, 256);
    NumeralAppend(HeadSextets(a, b, c), Sextets(rest), 64);
    PowersMeet(k);
    assert |rest| == 3 * k + 2 && |Sextets(rest)| == 4 * k + 3;
    Scale(Numeral([a, b, c], 256), Pow(256, |rest|), Pow(64, |Sextets(rest)|), Numeral(rest, 256));
  }

  lemma Scale(n: int, p: int, q: int, r: int)
    requires q == 4 * p
    ensures n * q + 4 * r == 4 * (n * p + r)
  {
  }

  // ---- decoding ----

  /** `bytes` are what the string stands for once its last two bits are dropped. */
  ghost predicate StandsFor(s: string, bytes: seq<int>) {
    |bytes| == 32 && Digits(bytes, 256) && Numeral(bytes, 256) == Numeral(Indices(s), 64) / 4
  }

  lemma OneMeaning(s: string, xs: seq<int>, ys: seq<int>)
    requires StandsFor(s, xs) && StandsFor(s, ys)
    ensures xs == ys
  {
    NumeralInjective(xs, ys, 256);
  }

  lemma EncodedIndices(bytes: seq<int>)
    requires Digits(bytes, 256) && |bytes| == 32
    ensures Indices(Encode(bytes)) == Sextets(bytes)
  {
    SextetsAreDigits(bytes);
    forall i | 0 <= i < 43 ensures Indices(Encode(bytes))[i] == Sextets(bytes)[i] {
      AlphabetMatches(Sextets(bytes)[i], 'A');
    }
  }

  /** Every 32-byte value has an accepted string that stands for it. */
  lemma EncodeAccepted(bytes: seq<int>)
    requires Digits(bytes, 256) && |bytes| == 32
    ensures Accepted(Encode(bytes)) && StandsFor(Encode(bytes), bytes)
  {
    EncodedIndices(bytes);
    SextetsAreDigits(bytes);
    SextetsStandFor(bytes);
    var s := Encode(bytes);
    forall i | 0 <= i < 43 ensures InAlphabet(s[i]) {
      assert Indices(s)[i] == Sextets(bytes)[i];
    }
    assert Indices(s)[42] == Sextets(bytes)[42];
    MayEndMeans(s[42]);
  }

  /** An accepted string is the encoding of what it stands for: no two accepted strings share a value. */
  lemma AcceptedIsEncoding(s: string, bytes: seq<int>)
    requires Accepted(s) && StandsFor(s, bytes)
    ensures Encode(bytes) == s
  {
    SextetsAreDigits(bytes);
    SextetsStandFor(bytes);
    MayEndMeans(s[42]);
    LastDigits(Indices(s));
    forall i | 0 <= i < 43 ensures 0 <= Indices(s)[i] < 64 {
      AlphabetMatches(0, s[i]);
      assert i < 42 ==> InAlphabet(s[i]);
    }
    NumeralInjective(Sextets(bytes), Indices(s), 64);
    forall i | 0 <= i < 43 ensures Encode(bytes)[i] == s[i] {
      AlphabetMatches(0, s[i]);
    }
  }

  lemma LastDigits(ds: seq<int>)
    requires ds != []
    ensures Numeral(ds, 64) % 4 == ds[|ds| - 1] % 4
  {
    LowBits(Numeral(ds[..|ds| - 1], 64), ds[|ds| - 1]);
  }

  lemma LowBits(n: int, d: int)
    ensures (n * 64 + d) % 4 == d % 4
  {
    assert n * 64 + d == d + 4 * (n * 16);
    assert (d + 4 * (n * 16)) % 4 == d % 4;
  }

  // ---- the other parser: decode leniently, then compare the re-encoding ----

  /** Four sextets make three bytes; of a shorter last group the bits that do not fill a byte are dropped. */
  function Octets(ds: seq<int>): seq<int> {
    if |ds| >= 4 then [ds[0] * 4 + ds[1] / 16, ds[1] % 16 * 16 + ds[2] / 4, ds[2] % 4 * 64 + ds[3]] + Octets(ds[4..])
    else if |ds| == 3 then [ds[0] * 4 + ds[1] / 16, ds[1] % 16 * 16 + ds[2] / 4]
    else if |ds| == 2 then [ds[0] * 4 + ds[1] / 16]
    else []
  }

  lemma OctetGroup(a: int, b: int, c: int, d: int)
    requires 0 <= a < 64 && 0 <= b < 64 && 0 <= c < 64 && 0 <= d < 64
    ensures 0 <= a * 4 + b / 16 < 256 && 0 <= b % 16 * 16 + c / 4 < 256 && 0 <= c % 4 * 64 + d < 256
    ensures ((a * 4 + b / 16) * 256 + (b % 16 * 16 + c / 4)) * 256 + (c % 4 * 64 + d) ==
            ((a * 64 + b) * 64 + c) * 64 + d
    ensures (a * 4 + b / 16) * 256 + (b % 16 * 16 + c / 4) == ((a * 64 + b) * 64 + c) / 4
  {
    assert b == b / 16 * 16 + b % 16 && c == c / 4 * 4 + c % 4;
  }

  lemma {:induction false} OctetsAreDigits(ds: seq<int>)
    requires Digits(ds, 64) && |ds| % 4 == 3
    ensures Digits(Octets(ds), 256) && |Octets(ds)| == |ds| / 4 * 3 + 2
  {
    OctetGroup(ds[0], ds[1], ds[2], 0);
    if |ds| >= 4 {
      OctetGroup(ds[0], ds[1], ds[2], ds[3]);
      var rest := Octets(ds[4..]);
      OctetsAreDigits(ds[4..]);
      assert |Octets(ds)| == 3 + |rest| && forall i | 3 <= i < |Octets(ds)| :: Octets(ds)[i] == rest[i - 3];
    }
  }

  /** The octets stand for the sextets' number with its last two bits dropped. */
  lemma {:induction false} OctetsStandFor(ds: seq<int>)
    requires Digits(ds, 64) && |ds| % 4 == 3
    ensures Numeral(Octets(ds), 256) == Numeral(ds, 64) / 4
  {
    if |ds| == 3 {
      assert ds == [ds[0], ds[1], ds[2]];
      NumeralOf4(ds[0], ds[1], ds[2], 0, 64);
      NumeralOf4(ds[0] * 4 + ds[1] / 16, ds[1] % 16 * 16 + ds[2] / 4, 0, 0, 256);
      OctetGroup(ds[0], ds[1], ds[2], 0);
    } else {
      OctetsStandFor(ds[4..]);
      OctetsAreDigits(ds[4..]);
      FirstOctets(ds[0], ds[1], ds[2], ds[3], ds[4..], ds);
    }
  }

  lemma OctetsOfMore(a: int, b: int, c: int, d: int, rest: seq<int>)
    ensures Octets([a, b, c, d] + rest) == [a * 4 + b / 16, b % 16 * 16 + c / 4, c % 4 * 64 + d] + Octets(rest)
  {
    assert ([a, b, c, d] + rest)[4..] == rest;
  }

  lemma HeadsAgree(a: int, b: int, c: int, d: int)
    requires 0 <= a < 64 && 0 <= b < 64 && 0 <= c < 64 && 0 <= d < 64
    ensures Numeral([a * 4 + b / 16, b % 16 * 16 + c / 4, c % 4 * 64 + d], 256) == Numeral([a, b, c, d], 64)
  {
    NumeralOf4(a, b, c, d, 64);
    NumeralOf4(a * 4 + b / 16, b % 16 * 16 + c / 4, c % 4 * 64 + d, 0, 256);
    hide Numeral, Pow;
    OctetGroup(a, b, c, d);
  }

  lemma FirstOctets(a: int, b: int, c: int, d: int, rest: seq<int>, ds: seq<int>)
    requires ds == [a, b, c, d] + rest && |rest| % 4 == 3
    requires 0 <= a < 64 && 0 <= b < 64 && 0 <= c < 64 && 0 <= d < 64
    requires Numeral(Octets(rest), 256) == Numeral(rest, 64) / 4 && |Octets(rest)| == |rest| / 4 * 3 + 2
    ensures Numeral(Octets(ds), 256) == Numeral(ds, 64) / 4
  {
    var head := [a * 4 + b / 16, b % 16 * 16 + c / 4, c % 4 * 64 + d];
    OctetsOfMore(a, b, c, d, rest);
    HeadsAgree(a, b, c, d);
    hide Numeral, Octets, Pow;
    NumeralAppend([a, b, c, d], rest, 64);
    NumeralAppend(head, Octets(rest), 256);
    PowersMeet(|rest| / 4);
    Quartered(Numeral(head, 256), Pow(256, |Octets(rest)|), Pow(64, |rest|), Numeral(rest, 64));
  }

  lemma Quartered(n: int, p: int, q: int, r: int)
    requires q == 4 * p
    ensures (n * q + r) / 4 == n * p + r / 4
  {
    assert n * q == 4 * (n * p);
  }

  predicate Spelled(s: string) {
    |s| == 43 && forall i | 0 <= i < 43 :: InAlphabet(s[i])
  }

  /** What lenient decoding makes of any 43 characters of the alphabet. */
  function Lenient(s: string): (bytes: seq<int>)
    requires Spelled(s)
    ensures Digits(bytes, 256) && |bytes| == 32
  {
    SpelledIndices(s);
    OctetsAreDigits(Indices(s));
    Octets(Indices(s))
  }

  lemma SpelledIndices(s: string)
    requires Spelled(s)
    ensures Digits(Indices(s), 64)
  {
    forall i | 0 <= i < 43 ensures 0 <= Indices(s)[i] < 64 {
      AlphabetMatches(0, s[i]);
      assert InAlphabet(s[i]);
    }
  }

  lemma LenientStandsFor(s: string)
    requires Spelled(s)
    ensures StandsFor(s, Lenient(s))
  {
    SpelledIndices(s);
    OctetsAreDigits(Indices(s));
    OctetsStandFor(Indices(s));
  }

  /** The parser that decodes leniently and refuses whatever does not encode back to itself. */
  function ParseSecret(s: string): Option<seq<int>> {
    if !Spelled(s) then None
    else if Encode(Lenient(s)) != s then None
    else Some(Lenient(s))
  }

  /** The two parsers accept the same strings of any kind, and read the same bytes from each of them. */
  lemma ReencodeTest(s: string)
    ensures ParseSecret(s).Some? <==> Accepted(s)
    ensures forall bytes :: ParseSecret(s) == Some(bytes) <==> Accepted(s) && StandsFor(s, bytes)
  {
    MayEndMeans(if |s| == 43 then s[42] else 'A');
    assert Accepted(s) ==> Spelled(s);
    if Spelled(s) {
      LenientStandsFor(s);
      EncodeAccepted(Lenient(s));
      if Accepted(s) {
        AcceptedIsEncoding(s, Lenient(s));
      }
      forall bytes | StandsFor(s, bytes) ensures bytes == Lenient(s) {
        OneMeaning(s, bytes, Lenient(s));
      }
    }
  }
}
