/** The canonical tag-length-value form of authentication records. */
module Tlv {
  import opened Outcomes
  import opened Text
  import opened Utf8

  datatype Value = Absent | Words(text: string) | Binary(bytes: seq<byte>)

  datatype FieldKind = TextField | BinaryField | NullableTextField

  // ---- texts ----

  predicate Control(c: char) {
    var n := c as int;
    n <= 0x1F || 0x7F <= n <= 0x9F
  }

  /** Not empty, nothing to trim, no control character. */
  predicate CanonicalText(s: string) {
    s != "" && !Blank(s[0]) && !Blank(s[|s| - 1]) && forall i | 0 <= i < |s| :: !Control(s[i])
  }

  lemma TextHasBytes(s: string)
    requires s != ""
    ensures Utf8.Encode(s) != []
  {
  }

  // ---- lengths ----

  const WORD: int := 0x1_0000_0000

  function Low(n: int): byte {
    n % 256
  }

  function U32(n: nat): (b: seq<byte>)
    ensures |b| == 4
  {
    [Low(n / 16777216), Low(n / 65536), Low(n / 256), Low(n)]
  }

  function Widen(b: byte): int {
    b
  }

  function ReadU32(b: seq<byte>): (n: nat)
    requires |b| >= 4
    ensures n < WORD
  {
    Widen(b[0]) * 16777216 + Widen(b[1]) * 65536 + Widen(b[2]) * 256 + Widen(b[3])
  }

  lemma LengthReadsBack(n: nat, rest: seq<byte>)
    requires n < WORD
    ensures ReadU32(U32(n) + rest) == n
  {
    BytesOf(n);
    BytesRead(n, rest);
  }

  lemma BytesRead(n: nat, rest: seq<byte>)
    requires n < WORD
    ensures ReadU32(U32(n) + rest) ==
            n / 16777216 % 256 * 16777216 + n / 65536 % 256 * 65536 + n / 256 % 256 * 256 + n % 256
  {
    assert forall k | 0 <= k < 4 :: (U32(n) + rest)[k] == U32(n)[k];
  }

  lemma BytesOf(n: nat)
    requires n < WORD
    ensures n == n / 16777216 % 256 * 16777216 + n / 65536 % 256 * 65536 + n / 256 % 256 * 256 + n % 256
  {
    Halves(n, 256);
    Halves(n / 256, 256);
    Halves(n / 65536, 256);
    assert n / 65536 == n / 256 / 256 && n / 16777216 == n / 65536 / 256;
  }

  lemma Halves(n: nat, m: nat)
    requires m > 0
    ensures n == n / m * m + n % m
  {
  }

  lemma LengthWritesBack(b: seq<byte>)
    requires |b| >= 4
    ensures U32(ReadU32(b)) == b[..4]
  {
    var n := ReadU32(b);
    assert n / 256 == Widen(b[0]) * 65536 + Widen(b[1]) * 256 + Widen(b[2]);
    assert n / 65536 == Widen(b[0]) * 256 + Widen(b[1]);
    assert n / 16777216 == Widen(b[0]);
  }

  // ---- encoding ----

  /** The content bytes of a value the encoder accepts. */
  function Content(v: Value): (r: Option<seq<byte>>)
    ensures r.Some? ==> |r.value| < WORD && (v.Absent? <==> r.value == [])
  {
    match v
    case Absent => Some([])
    case Binary(b) => if b == [] || |b| >= WORD then None else Some(b)
    case Words(s) =>
      if !CanonicalText(s) then None
      else
        TextHasBytes(s);
        if |Utf8.Encode(s)| >= WORD then None else Some(Utf8.Encode(s))
  }

  function Presence(v: Value): byte {
    if v.Absent? then 0 else 1
  }

  function Chunk(tag: byte, v: Value): seq<byte>
    requires Content(v).Some?
  {
    [tag, Presence(v)] + U32(|Content(v).value|) + Content(v).value
  }

  predicate Encodable(values: seq<Value>) {
    1 <= |values| <= 255 && forall i | 0 <= i < |values| :: Content(values[i]).Some?
  }

  /** The chunks from field `i` on, tagged 1, 2, ... in order. */
  function ChunksFrom(values: seq<Value>, i: nat): seq<byte>
    requires Encodable(values) && i <= |values|
    decreases |values| - i
  {
    if i == |values| then [] else Chunk(i + 1, values[i]) + ChunksFrom(values, i + 1)
  }

  function Encode(values: seq<Value>): Option<seq<byte>> {
    if !Encodable(values) then None else Some(ChunksFrom(values, 0))
  }

  // ---- decoding ----

  function DecodeField(kind: FieldKind, presence: byte, content: seq<byte>): Option<Value> {
    if presence == 0 then if kind.NullableTextField? && content == [] then Some(Absent) else None
    else if presence != 1 then None
    else if kind.BinaryField? then if content == [] then None else Some(Binary(content))
    else match Utf8.Decode(content)
      case None => None
      case Some(s) => if CanonicalText(s) then Some(Words(s)) else None
  }

  /** The fields from `i` on, read from `data`, which they must use up. */
  function DecodeFrom(data: seq<byte>, kinds: seq<FieldKind>, i: nat): (r: Option<seq<Value>>)
    requires i <= |kinds| <= 255
    ensures r.Some? ==> |r.value| == |kinds| - i
    decreases |kinds| - i
  {
    if i == |kinds| then if data == [] then Some([]) else None
    else if |data| < 6 || data[0] != i + 1 then None
    else
      var length := ReadU32(data[2..]);
      if length > |data| - 6 then None
      else match DecodeField(kinds[i], data[1], data[6..6 + length])
        case None => None
        case Some(v) =>
          match DecodeFrom(data[6 + length..], kinds, i + 1)
          case None => None
          case Some(rest) => Some([v] + rest)
  }

  function Decode(data: seq<byte>, kinds: seq<FieldKind>): (r: Option<seq<Value>>)
    ensures r.Some? ==> |r.value| == |kinds|
  {
    if kinds == [] || |kinds| > 255 then None else DecodeFrom(data, kinds, 0)
  }

  // ---- inverses ----

  predicate FieldFits(v: Value, kind: FieldKind) {
    match v
    case Absent => kind.NullableTextField?
    case Words(_) => !kind.BinaryField?
    case Binary(_) => kind.BinaryField?
  }

  predicate Fits(values: seq<Value>, kinds: seq<FieldKind>) {
    |values| == |kinds| && forall i | 0 <= i < |values| :: FieldFits(values[i], kinds[i])
  }

  lemma FieldDecodes(v: Value, kind: FieldKind)
    requires FieldFits(v, kind) && Content(v).Some?
    ensures DecodeField(kind, Presence(v), Content(v).value) == Some(v)
  {
    if v.Words? {
      DecodeOfEncode(v.text);
    }
  }

  lemma FieldIsEncoded(kind: FieldKind, presence: byte, content: seq<byte>)
    requires DecodeField(kind, presence, content).Some? && |content| < WORD
    ensures var v := DecodeField(kind, presence, content).value;
            FieldFits(v, kind) && Content(v) == Some(content) && Presence(v) == presence
  {
    if presence == 1 && !kind.BinaryField? {
      EncodeOfDecode(content);
    }
  }

  lemma ChunkParts(tag: byte, v: Value, rest: seq<byte>)
    requires Content(v).Some?
    ensures var d := Chunk(tag, v) + rest;
            && |d| >= 6 && d[0] == tag && d[1] == Presence(v) && ReadU32(d[2..]) == |Content(v).value| <= |d| - 6
            && d[6..6 + |Content(v).value|] == Content(v).value && d[6 + |Content(v).value|..] == rest
  {
    var content := Content(v).value;
    var d := Chunk(tag, v) + rest;
    assert d == [tag, Presence(v)] + (U32(|content|) + (content + rest));
    assert d[2..] == U32(|content|) + (content + rest);
    LengthReadsBack(|content|, content + rest);
    assert d[6..] == content + rest;
  }

  lemma {:induction false} DecodesFrom(values: seq<Value>, kinds: seq<FieldKind>, i: nat)
    requires Encodable(values) && Fits(values, kinds) && i <= |values|
    ensures DecodeFrom(ChunksFrom(values, i), kinds, i) == Some(values[i..])
    decreases |values| - i
  {
    hide ReadU32, DecodeField, Chunk, FieldFits, Presence;
    if i < |values| {
      DecodesFrom(values, kinds, i + 1);
      assert Content(values[i]).Some?;
      hide Content;
      ChunkParts(i + 1, values[i], ChunksFrom(values, i + 1));
      assert FieldFits(values[i], kinds[i]);
      FieldDecodes(values[i], kinds[i]);
      assert values[i..] == [values[i]] + values[i + 1..];
      var data, length := ChunksFrom(values, i), |Content(values[i]).value|;
      assert data[6 + length..] == ChunksFrom(values, i + 1) && ReadU32(data[2..]) == length && data[0] == i + 1;
    } else {
      assert values[i..] == [];
    }
  }

  /** Decoding what was encoded gives the values back. */
  lemma DecodeInvertsEncode(values: seq<Value>, kinds: seq<FieldKind>)
    requires Fits(values, kinds) && Encode(values).Some?
    ensures Decode(Encode(values).value, kinds) == Some(values)
  {
    DecodesFrom(values, kinds, 0);
    assert values[0..] == values;
  }

  lemma ChunkIsSplit(data: seq<byte>, tag: byte, v: Value)
    requires |data| >= 6 && data[0] == tag && ReadU32(data[2..]) <= |data| - 6
    requires Content(v) == Some(data[6..6 + ReadU32(data[2..])]) && Presence(v) == data[1]
    ensures data == Chunk(tag, v) + data[6 + ReadU32(data[2..])..]
  {
    var length := ReadU32(data[2..]);
    LengthWritesBack(data[2..]);
    assert data[2..][..4] == data[2..6];
    assert |data[6..6 + length]| == length;
    assert data == [data[0], data[1]] + data[2..6] + data[6..6 + length] + data[6 + length..];
  }

  lemma {:induction false} ChunksAlike(values: seq<Value>, k: nat)
    requires Encodable(values) && k <= |values|
    ensures ChunksAt(values, 0, k) == ChunksFrom(values, k)
    decreases |values| - k
  {
    if k < |values| {
      ChunksAlike(values, k + 1);
    }
  }

  /** The chunks of `values[k..]`, tagged from `i + k + 1` on. */
  function ChunksAt(values: seq<Value>, i: nat, k: nat): seq<byte>
    requires k <= |values| && i + |values| <= 255 && forall j | 0 <= j < |values| :: Content(values[j]).Some?
    decreases |values| - k
  {
    if k == |values| then [] else Chunk(i + k + 1, values[k]) + ChunksAt(values, i, k + 1)
  }

  lemma {:induction false} ChunksRest(v: Value, rest: seq<Value>, i: nat, k: nat)
    requires Content(v).Some? && i + 1 + |rest| <= 255 && k <= |rest| && forall j | 0 <= j < |rest| ::
             Content(rest[j]).Some?
    ensures ChunksAt([v] + rest, i, k + 1) == ChunksAt(rest, i + 1, k)
    decreases |rest| - k
  {
    if k < |rest| {
      ChunksRest(v, rest, i, k + 1);
    }
  }

  lemma {:induction false} EncodedFrom(data: seq<byte>, kinds: seq<FieldKind>, i: nat)
    requires i <= |kinds| <= 255 && DecodeFrom(data, kinds, i).Some?
    ensures var values := DecodeFrom(data, kinds, i).value;
            && |values| == |kinds| - i
            && (forall j | 0 <= j < |values| :: FieldFits(values[j], kinds[i + j]) && Content(values[j]).Some?)
            && ChunksAt(values, i, 0) == data
    decreases |kinds| - i
  {
    hide DecodeField, FieldFits, Content, Chunk, Presence;
    if i < |kinds| {
      var length := ReadU32(data[2..]);
      hide ReadU32;
      var rest := DecodeFrom(data[6 + length..], kinds, i + 1).value;
      var v := DecodeField(kinds[i], data[1], data[6..6 + length]).value;
      EncodedFrom(data[6 + length..], kinds, i + 1);
      FieldIsEncoded(kinds[i], data[1], data[6..6 + length]);
      ChunkIsSplit(data, i + 1, v);
      ChunksRest(v, rest, i, 0);
    }
  }

  /** Every accepted byte string is the encoding of what it decodes to: the form is canonical. */
  lemma EncodeInvertsDecode(data: seq<byte>, kinds: seq<FieldKind>)
    requires Decode(data, kinds).Some?
    ensures Fits(Decode(data, kinds).value, kinds) && Encode(Decode(data, kinds).value) == Some(data)
  {
    EncodedFrom(data, kinds, 0);
    var values := Decode(data, kinds).value;
    ChunksAlike(values, 0);
  }

  /** The decoder accepts exactly the encodings of fitting values, and reads each of them one way. */
  lemma AcceptsExactlyEncodings(data: seq<byte>, kinds: seq<FieldKind>)
    ensures Decode(data, kinds).Some? <==> exists values :: Fits(values, kinds) && Encode(values) == Some(data)
  {
    if Decode(data, kinds).Some? {
      EncodeInvertsDecode(data, kinds);
    }
    if values :| Fits(values, kinds) && Encode(values) == Some(data) {
      DecodeInvertsEncode(values, kinds);
    }
  }

  /** Fitting values with one encoding are the same. */
  lemma EncodeInjective(xs: seq<Value>, ys: seq<Value>, kinds: seq<FieldKind>)
    requires Fits(xs, kinds) && Fits(ys, kinds) && Encode(xs).Some? && Encode(xs) == Encode(ys)
    ensures xs == ys
  {
    DecodeInvertsEncode(xs, kinds);
    DecodeInvertsEncode(ys, kinds);
  }
}
