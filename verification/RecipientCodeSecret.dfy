/** The bit-buffer decoder of a recipient code, and that it computes the value the code stands for. */
module RecipientCodeSecret {
  import opened Outcomes
  import opened Base64Url

  /** The sextets read so far are the bytes written so far with `bits` more bits in the buffer. */
  ghost predicate Buffered(read: int, written: int, buffer: int, bits: nat) {
    bits < 8 && 0 <= buffer < Pow(2, bits) && read == written * Pow(2, bits) + buffer
  }

  lemma Powers()
    ensures Pow(2, 0) == 1 && Pow(2, 1) == 2 && Pow(2, 2) == 4 && Pow(2, 3) == 8 && Pow(2, 4) == 16 && Pow(2, 5) == 32
    ensures Pow(2, 6) == 64 && Pow(2, 7) == 128 && Pow(2, 8) == 256
  {
  }

  /** Six more bits, none to spare for a byte. */
  lemma Shifted(read: int, written: int, buffer: int, bits: nat, d: int)
    requires Buffered(read, written, buffer, bits) && 0 <= d < 64 && bits < 2
    ensures Buffered(read * 64 + d, written, buffer * 64 + d, bits + 6)
  {
    Powers();
    assert bits == 0 || bits == 1;
  }

  lemma Split(read: int, written: int, buffer: int, p: int, d: int)
    requires p > 0 && 0 <= buffer < 4 * p && read == written * (4 * p) + buffer && 0 <= d < 64
    ensures var b := buffer * 64 + d;
            0 <= b / p < 256 && 0 <= b % p < p && read * 64 + d == (written * 256 + b / p) * p + b % p
  {
    var b := buffer * 64 + d;
    assert b < 256 * p;
    assert b == b / p * p + b % p;
    Quotient(b, p);
    assert read * 64 == written * (4 * p) * 64 + buffer * 64;
    assert written * (4 * p) * 64 == written * 256 * p;
    assert (written * 256 + b / p) * p == written * 256 * p + b / p * p;
  }

  lemma Quotient(b: int, p: int)
    requires p > 0 && 0 <= b < 256 * p
    ensures 0 <= b / p < 256
  {
    var q := b / p;
    assert q * p <= b;
    assert q >= 256 ==> q * p >= 256 * p;
  }

  /** Six more bits, and a byte leaves the buffer. */
  lemma Emitted(read: int, written: int, buffer: int, bits: nat, d: int)
    requires Buffered(read, written, buffer, bits) && 0 <= d < 64 && 2 <= bits
    ensures var b, p := buffer * 64 + d, Pow(2, bits - 2);
            p > 0 && 0 <= b / p < 256 && Buffered(read * 64 + d, written * 256 + b / p, b % p, bits - 2)
  {
    assert Pow(2, bits) == 2 * Pow(2, bits - 1) && Pow(2, bits - 1) == 2 * Pow(2, bits - 2);
    Split(read, written, buffer, Pow(2, bits - 2), d);
  }

  lemma OneMoreDigit(ds: seq<int>, k: nat, base: nat)
    requires k < |ds|
    ensures Numeral(ds[..k + 1], base) == Numeral(ds[..k], base) * base + ds[k]
  {
    NumeralSnoc(ds[..k], ds[k], base);
    assert ds[..k + 1] == ds[..k] + [ds[k]];
  }

  lemma KnownSextet(value: string, k: nat)
    requires Accepted(value) && k < 43
    ensures |value| == 43 && 0 <= Indices(value)[k] < 64
  {
    MayEndMeans(value[k]);
    AlphabetMatches(0, value[k]);
    assert k < 42 ==> InAlphabet(value[k]);
  }

  lemma Start()
    ensures Buffered(Numeral([], 64), Numeral([], 256), 0, 0)
  {
    Powers();
  }

  lemma Finished(read: int, written: int, buffer: int)
    requires Buffered(read, written, buffer, 2)
    ensures written == read / 4
  {
    Powers();
  }

  /** One turn of the loop: a sextet enters the buffer, and a byte leaves it when eight bits are there. */
  method Take(decoded: array<int>, offset: nat, buffer: int, bits: nat, d: int, ghost read: int)
    returns (offset': nat, buffer': int, bits': nat)
    requires 0 <= d < 64 && bits < 8 && offset <= decoded.Length && (bits >= 2 ==> offset < decoded.Length)
    requires Digits(decoded[..offset], 256) && Buffered(read, Numeral(decoded[..offset], 256), buffer, bits)
    modifies decoded
    ensures offset' == (if bits < 2 then offset else offset + 1) && bits' == (if bits < 2 then bits + 6 else bits - 2)
    ensures Digits(decoded[..offset'], 256)
    ensures Buffered(read * 64 + d, Numeral(decoded[..offset'], 256), buffer', bits')
  {
    hide Numeral, Pow, Buffered;
    if bits < 2 {
      Shifted(read, Numeral(decoded[..offset], 256), buffer, bits, d);
      return offset, buffer * 64 + d, bits + 6;
    }
    Emitted(read, Numeral(decoded[..offset], 256), buffer, bits, d);
    var p := Pow(2, bits - 2);
    ghost var before := decoded[..offset];
    decoded[offset] := (buffer * 64 + d) / p % 256;
    assert decoded[..offset + 1] == before + [decoded[offset]];
    NumeralSnoc(before, decoded[offset], 256);
    return offset + 1, (buffer * 64 + d) % p, bits - 2;
  }

  class Secret {
    const bytes: array<int>

    /** One sextet after the other into a small buffer; a byte leaves it whenever eight bits are there. */
    constructor (value: string)
      requires Accepted(value)
      ensures fresh(bytes) && bytes.Length == 32 && StandsFor(value, bytes[..])
    {
      hide Numeral, Pow, IndexOf, Accepted, Buffered;
      var decoded := new int[32](_ => 0);
      var bits, buffer, offset := 0, 0, 0;
      Start();
      KnownSextet(value, 0);
      var ds := Indices(value);
      assert ds[..0] == [] && decoded[..0] == [];
      for k := 0 to 43
        invariant 0 <= bits < 8 && 8 * offset + bits == 6 * k && 0 <= offset <= 32
        invariant Digits(decoded[..offset], 256)
        invariant Buffered(Numeral(ds[..k], 64), Numeral(decoded[..offset], 256), buffer, bits)
      {
        KnownSextet(value, k);
        OneMoreDigit(ds, k, 64);
        offset, buffer, bits := Take(decoded, offset, buffer, bits, ds[k], Numeral(ds[..k], 64));
      }
      assert ds[..43] == ds && decoded[..32] == decoded[..];
      Finished(Numeral(ds, 64), Numeral(decoded[..], 256), buffer);
      bytes := decoded;
    }

    /** An independent copy for every caller. */
    method CopyBytes() returns (copy: array<int>)
      ensures fresh(copy) && copy[..] == bytes[..]
    {
      copy := new int[bytes.Length](i requires 0 <= i < bytes.Length reads this, bytes => bytes[i]);
    }
  }

  method CheckForm(value: string) returns (ok: bool)
    ensures ok == Accepted(value)
  {
    if |value| != 43 {
      return false;
    }
    for k := 0 to 42
      invariant forall i | 0 <= i < k :: InAlphabet(value[i])
    {
      if !InAlphabet(value[k]) {
        return false;
      }
    }
    ok := MayEnd(value[42]);
  }

  /** A secret exactly for the accepted strings, and the one value each of them encodes. */
  method Parse(value: string) returns (secret: Option<Secret>)
    ensures secret.Some? <==> Accepted(value)
    ensures secret.Some? ==> var b := secret.value.bytes[..]; |b| == 32 && Digits(b, 256) && Encode(b) == value
  {
    var ok := CheckForm(value);
    if !ok {
      return None;
    }
    var s := new Secret(value);
    AcceptedIsEncoding(value, s.bytes[..]);
    secret := Some(s);
  }
}
