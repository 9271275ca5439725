/**
 * UTF-8 as the platform encodes text and as its strict decoder accepts it. Text is a sequence of Unicode scalar values.
 */
module Utf8 {
  import opened Outcomes

  type byte = n: int | 0 <= n < 256

  function EncodeChar(c: char): (b: seq<byte>)
    ensures b != []
  {
    var n := c as int;
    if n < 0x80 then [n]
    else if n < 0x800 then [0xC0 + n / 64, 0x80 + n % 64]
    else if n < 0x10000 then [0xE0 + n / 4096, 0x80 + n / 64 % 64, 0x80 + n % 64]
    else [0xF0 + n / 262144, 0x80 + n / 4096 % 64, 0x80 + n / 64 % 64, 0x80 + n % 64]
  }

  function Encode(s: string): seq<byte> {
    if s == "" then [] else EncodeChar(s[0]) + Encode(s[1..])
  }

  predicate Tail(b: byte) {
    0x80 <= b <= 0xBF
  }

  /** The second byte must exclude overlong forms, surrogates and values past the last plane. */
  predicate Second(lead: byte, b: byte) {
    && (if lead == 0xE0 then 0xA0 <= b else if lead == 0xF0 then 0x90 <= b else 0x80 <= b)
    && (if lead == 0xED then b <= 0x9F else if lead == 0xF4 then b <= 0x8F else b <= 0xBF)
  }

  function Scalar(n: int): (c: char)
    requires 0 <= n < 0xD800 || 0xE000 <= n < 0x110000
    ensures c as int == n
  {
    n as char
  }

  function Bits(b: byte, marker: int): int {
    b - marker
  }

  /** The first character of the bytes and how many bytes it takes; none when they are malformed. */
  function DecodeChar(b: seq<byte>): (r: Option<(char, nat)>)
    requires b != []
    ensures r.Some? ==> 1 <= r.value.1 <= |b|
  {
    if b[0] < 0x80 then Some((Scalar(Bits(b[0], 0)), 1))
    else if 0xC2 <= b[0] <= 0xDF && |b| >= 2 && Tail(b[1]) then Some((Scalar(Bits(b[0], 0xC0) * 64 + Bits(b[1], 0x80)),
                                                                      2))
    else if 0xE0 <= b[0] <= 0xEF && |b| >= 3 && Second(b[0], b[1]) && Tail(b[2]) then
      Some((Scalar(Bits(b[0], 0xE0) * 4096 + Bits(b[1], 0x80) * 64 + Bits(b[2], 0x80)), 3))
    else if 0xF0 <= b[0] <= 0xF4 && |b| >= 4 && Second(b[0], b[1]) && Tail(b[2]) && Tail(b[3]) then
      Some((Scalar(Bits(b[0], 0xF0) * 262144 + Bits(b[1], 0x80) * 4096 + Bits(b[2], 0x80) * 64 + Bits(b[3], 0x80)), 4))
    else None
  }

  function Decode(b: seq<byte>): Option<string>
    decreases |b|
  {
    if b == [] then Some("")
    else match DecodeChar(b)
      case None => None
      case Some((c, n)) =>
        match Decode(b[n..])
        case None => None
        case Some(rest) => Some([c] + rest)
  }

  // ---- decoding inverts encoding ----

  lemma TwoParts(n: int)
    requires 0x80 <= n < 0x800
    ensures 2 <= n / 64 < 32 && n == n / 64 * 64 + n % 64
  {
  }

  lemma ThreeParts(n: int)
    requires 0x800 <= n < 0x10000
    ensures 0 <= n / 4096 < 16 && n == n / 4096 * 4096 + n / 64 % 64 * 64 + n % 64
    ensures n / 4096 == 0 ==> n / 64 % 64 >= 0x20
    ensures n / 4096 == 0xD ==> (n < 0xD800 <==> n / 64 % 64 <= 0x1F)
  {
    assert n / 64 == n / 4096 * 64 + n / 64 % 64;
  }

  lemma FourParts(n: int)
    requires 0x10000 <= n < 0x110000
    ensures 0 <= n / 262144 <= 4 && n == n / 262144 * 262144 + n / 4096 % 64 * 4096 + n / 64 % 64 * 64 + n % 64
    ensures n / 262144 == 0 ==> n / 4096 % 64 >= 0x10
    ensures n / 262144 == 4 ==> n / 4096 % 64 <= 0xF
  {
    Quotients(n);
    assert n / 64 == n / 4096 * 64 + n / 64 % 64;
    assert n / 4096 == n / 262144 * 64 + n / 4096 % 64;
  }

  lemma CharDecodes(c: char, rest: seq<byte>)
    ensures DecodeChar(EncodeChar(c) + rest) == Some((c, |EncodeChar(c)|))
  {
    hide *;
    var n := c as int;
    if n < 0x80 {
      OneRound(c, rest);
    } else if n < 0x800 {
      TwoRound(c, rest);
    } else if n < 0x10000 {
      ThreeRound(c, rest);
    } else {
      FourRound(c, rest);
    }
  }

  lemma TwoRound(c: char, rest: seq<byte>)
    requires 0x80 <= c as int < 0x800
    ensures DecodeChar(EncodeChar(c) + rest) == Some((c, |EncodeChar(c)|))
  {
    hide *;
    var n := c as int;
    EncodedParts(c);
    TwoParts(n);
    TwoDecode(n / 64, n % 64, rest);
  }

  lemma ThreeRound(c: char, rest: seq<byte>)
    requires 0x800 <= c as int < 0x10000
    ensures DecodeChar(EncodeChar(c) + rest) == Some((c, |EncodeChar(c)|))
  {
    hide *;
    var n := c as int;
    assert n < 0xD800 || 0xE000 <= n;
    EncodedParts(c);
    ThreeParts(n);
    ThreeDecode(n / 4096, n / 64 % 64, n % 64, rest);
  }

  lemma FourRound(c: char, rest: seq<byte>)
    requires 0x10000 <= c as int
    ensures DecodeChar(EncodeChar(c) + rest) == Some((c, |EncodeChar(c)|))
  {
    hide *;
    var n := c as int;
    EncodedParts(c);
    FourParts(n);
    FourDecode(n / 262144, n / 4096 % 64, n / 64 % 64, n % 64, rest);
  }

  lemma EncodedParts(c: char)
    ensures var n := c as int;
            EncodeChar(c) ==
            if n < 0x80 then [n]
            else if n < 0x800 then [0xC0 + n / 64, 0x80 + n % 64]
            else if n < 0x10000 then [0xE0 + n / 4096, 0x80 + n / 64 % 64, 0x80 + n % 64]
            else [0xF0 + n / 262144, 0x80 + n / 4096 % 64, 0x80 + n / 64 % 64, 0x80 + n % 64]
  {
  }

  lemma OneRound(c: char, rest: seq<byte>)
    requires c as int < 0x80
    ensures DecodeChar(EncodeChar(c) + rest) == Some((c, |EncodeChar(c)|))
  {
    assert (EncodeChar(c) + rest)[0] == c as int;
  }

  lemma TwoDecode(x: int, y: int, rest: seq<byte>)
    requires 2 <= x < 32 && 0 <= y < 64
    ensures DecodeChar([0xC0 + x, 0x80 + y] + rest) == Some((Scalar(x * 64 + y), 2))
  {
    var b: seq<byte> := [0xC0 + x, 0x80 + y] + rest;
    assert b[0] == 0xC0 + x && b[1] == 0x80 + y;
  }

  lemma ThreeDecode(x: int, y: int, z: int, rest: seq<byte>)
    requires 0 <= x < 16 && 0 <= y < 64 && 0 <= z < 64 && (x == 0 ==> y >= 0x20) && (x == 0xD ==> y <= 0x1F)
    ensures DecodeChar([0xE0 + x, 0x80 + y, 0x80 + z] + rest) == Some((Scalar(x * 4096 + y * 64 + z), 3))
  {
    var b: seq<byte> := [0xE0 + x, 0x80 + y, 0x80 + z] + rest;
    assert b[0] == 0xE0 + x && b[1] == 0x80 + y && b[2] == 0x80 + z;
  }

  lemma FourDecode(w: int, x: int, y: int, z: int, rest: seq<byte>)
    requires 0 <= w <= 4 && 0 <= x < 64 && 0 <= y < 64 && 0 <= z < 64 && (w == 0 ==> x >= 0x10) && (w == 4 ==> x <= 0xF)
    ensures DecodeChar([0xF0 + w, 0x80 + x, 0x80 + y, 0x80 + z] + rest) ==
            Some((Scalar(w * 262144 + x * 4096 + y * 64 + z), 4))
  {
    var b: seq<byte> := [0xF0 + w, 0x80 + x, 0x80 + y, 0x80 + z] + rest;
    assert b[0] == 0xF0 + w && b[1] == 0x80 + x && b[2] == 0x80 + y && b[3] == 0x80 + z;
  }

  lemma {:induction false} DecodeOfEncode(s: string)
    ensures Decode(Encode(s)) == Some(s)
  {
    hide DecodeChar, EncodeChar;
    if s != "" {
      var b := Encode(s);
      CharDecodes(s[0], Encode(s[1..]));
      assert b[|EncodeChar(s[0])|..] == Encode(s[1..]);
      DecodeOfEncode(s[1..]);
      assert s == [s[0]] + s[1..];
    }
  }

  // ---- what is decoded has one encoding ----

  lemma CharIsEncoded(b: seq<byte>)
    requires b != [] && DecodeChar(b).Some?
    ensures EncodeChar(DecodeChar(b).value.0) == b[..DecodeChar(b).value.1]
  {
    if b[0] < 0x80 {
    } else if 0xC2 <= b[0] <= 0xDF {
      TwoEncoded(b);
    } else if 0xE0 <= b[0] <= 0xEF {
      ThreeEncoded(b);
    } else {
      FourEncoded(b);
    }
  }

  lemma TwoEncoded(b: seq<byte>)
    requires |b| >= 2 && 0xC2 <= b[0] <= 0xDF && Tail(b[1])
    ensures EncodeChar(Scalar(Bits(b[0], 0xC0) * 64 + Bits(b[1], 0x80))) == b[..2]
  {
    Two(b[0] - 0xC0, b[1] - 0x80);
  }

  lemma ThreeEncoded(b: seq<byte>)
    requires |b| >= 3 && 0xE0 <= b[0] <= 0xEF && Second(b[0], b[1]) && Tail(b[2])
    ensures EncodeChar(Scalar(Bits(b[0], 0xE0) * 4096 + Bits(b[1], 0x80) * 64 + Bits(b[2], 0x80))) == b[..3]
  {
    Three(b[0] - 0xE0, b[1] - 0x80, b[2] - 0x80);
  }

  lemma FourEncoded(b: seq<byte>)
    requires |b| >= 4 && 0xF0 <= b[0] <= 0xF4 && Second(b[0], b[1]) && Tail(b[2]) && Tail(b[3])
    ensures EncodeChar(Scalar(Bits(b[0], 0xF0) * 262144 + Bits(b[1], 0x80) * 4096 + Bits(b[2], 0x80) * 64 +
                              Bits(b[3], 0x80))) == b[..4]
  {
    Four(b[0] - 0xF0, b[1] - 0x80, b[2] - 0x80, b[3] - 0x80);
  }

  lemma Two(x: int, y: int)
    requires 0 <= x && 0 <= y < 64
    ensures (x * 64 + y) / 64 == x && (x * 64 + y) % 64 == y
  {
  }

  lemma Three(x: int, y: int, z: int)
    requires 0 <= x && 0 <= y < 64 && 0 <= z < 64
    ensures var n := x * 4096 + y * 64 + z; n / 4096 == x && n / 64 % 64 == y && n % 64 == z
  {
    var n := x * 4096 + y * 64 + z;
    Two(x * 64 + y, z);
    Two(x, y);
    Quotients(n);
  }

  lemma Four(w: int, x: int, y: int, z: int)
    requires 0 <= w && 0 <= x < 64 && 0 <= y < 64 && 0 <= z < 64
    ensures var n := w * 262144 + x * 4096 + y * 64 + z;
            n / 262144 == w && n / 4096 % 64 == x && n / 64 % 64 == y && n % 64 == z
  {
    var n := w * 262144 + x * 4096 + y * 64 + z;
    Two((w * 64 + x) * 64 + y, z);
    Two(w * 64 + x, y);
    Two(w, x);
    Quotients(n);
  }

  lemma Quotients(n: nat)
    ensures n / 4096 == n / 64 / 64 && n / 262144 == n / 4096 / 64
  {
  }

  lemma {:induction false} EncodeOfDecode(b: seq<byte>)
    requires Decode(b).Some?
    ensures Encode(Decode(b).value) == b
    decreases |b|
  {
    hide DecodeChar, EncodeChar;
    if b != [] {
      var (c, n) := DecodeChar(b).value;
      CharIsEncoded(b);
      EncodeOfDecode(b[n..]);
      var rest := Decode(b[n..]).value;
      assert ([c] + rest)[1..] == rest;
      assert b == b[..n] + b[n..];
    }
  }
}
