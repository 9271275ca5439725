/** The canonical encodings byte by byte and field by field: chunks, their texts, and a recipient code's record. */
module EncodingRules {
  import opened Outcomes
  import opened Text
  import opened TextRules
  import Utf8
  import opened Tlv
  import opened RecipientCodeRecords
  import opened LedgerBodies

  // ---- texts ----

  /** Not empty, without white space at either end, without a C0 or C1 control or a delete character. */
  predicate FineText(s: string) {
    && s != "" && !White(s[0]) && !White(s[|s| - 1])
    && forall c | c in s :: 0x20 <= c as int && !(0x7F <= c as int <= 0x9F)
  }

  lemma TextExact(s: string)
    ensures CanonicalText(s) <==> FineText(s)
  {
    if s != "" {
      WhiteIs(s[0]);
      WhiteIs(s[|s| - 1]);
    }
    hide Blank, White;
    if CanonicalText(s) {
      forall c | c in s ensures 0x20 <= c as int && !(0x7F <= c as int <= 0x9F) {
        var i :| 0 <= i < |s| && s[i] == c;
        assert !Control(s[i]);
      }
    }
    if FineText(s) {
      forall i | 0 <= i < |s| ensures !Control(s[i]) {
        assert s[i] in s;
      }
    }
  }

  // ---- chunks ----

  /** The bytes that stand for a value: nothing, the bytes themselves, or the text in UTF-8. */
  ghost predicate ContentOf(v: Value, bytes: seq<Utf8.byte>) {
    match v
    case Absent => bytes == []
    case Binary(b) => bytes == b != [] && |b| < 0x1_0000_0000
    case Words(s) => FineText(s) && |bytes| < 0x1_0000_0000 && Utf8.Decode(bytes) == Some(s)
  }

  /**
   * A chunk: the field's number from 1, whether a value is there, the content's length in four bytes with the most
   * significant first, and the content.
   */
  ghost predicate ChunkOf(data: seq<Utf8.byte>, number: int, v: Value) {
    && |data| >= 6 && data[0] as int == number && data[1] as int == (if v == Absent then 0 else 1)
    && |data| - 6 == data[2] as int * 16_777_216 + data[3] as int * 65_536 + data[4] as int * 256 + data[5] as int
    && ContentOf(v, data[6..])
  }

  /** The chunks of the fields from `i` on, one after the other. */
  ghost predicate ChunksOf(data: seq<Utf8.byte>, values: seq<Value>, i: nat)
    requires i <= |values|
    decreases |values| - i
  {
    if i == |values| then data == []
    else exists n: nat :: n <= |data| && ChunkOf(data[..n], i + 1, values[i]) && ChunksOf(data[n..], values, i + 1)
  }

  lemma ContentIs(v: Value, bytes: seq<Utf8.byte>)
    ensures Content(v) == Some(bytes) <==> ContentOf(v, bytes)
  {
    if v.Words? {
      TextExact(v.text);
      Utf8.DecodeOfEncode(v.text);
      if Utf8.Decode(bytes).Some? {
        Utf8.EncodeOfDecode(bytes);
      }
      hide CanonicalText, FineText, Utf8.Encode, Utf8.Decode;
    }
  }

  lemma ReadIs(data: seq<Utf8.byte>)
    requires |data| >= 6
    ensures ReadU32(data[2..]) ==
            data[2] as int * 16_777_216 + data[3] as int * 65_536 + data[4] as int * 256 + data[5] as int
  {
  }

  lemma ChunkIs(data: seq<Utf8.byte>, tag: Utf8.byte, v: Value)
    requires Content(v).Some?
    ensures data == Chunk(tag, v) <==> ChunkOf(data, tag, v)
  {
    hide Content, ContentOf, ReadU32, U32;
    ChunkParts(tag, v, []);
    assert Chunk(tag, v) + [] == Chunk(tag, v);
    ContentIs(v, Content(v).value);
    if |data| >= 6 {
      ReadIs(data);
      ContentIs(v, data[6..]);
      if data[0] == tag && ReadU32(data[2..]) == |data| - 6 && Content(v) == Some(data[6..]) && Presence(v) == data[1] {
        var length := ReadU32(data[2..]);
        assert data[6..6 + length] == data[6..] && data[6 + length..] == [];
        ChunkIsSplit(data, tag, v);
        assert Chunk(tag, v) + data[6 + length..] == Chunk(tag, v);
      }
    }
  }

  lemma ChunkNeedsContent(data: seq<Utf8.byte>, number: int, v: Value)
    requires ChunkOf(data, number, v)
    ensures Content(v).Some?
  {
    ContentIs(v, data[6..]);
    hide Content, ContentOf;
  }

  lemma FirstChunk(data: seq<Utf8.byte>, values: seq<Value>, i: nat, n: nat)
    requires i < |values| && n <= |data| && ChunkOf(data[..n], i + 1, values[i]) && ChunksOf(data[n..], values, i + 1)
    ensures ChunksOf(data, values, i)
  {
    hide ChunkOf;
  }

  lemma ChunkCount(data: seq<Utf8.byte>, values: seq<Value>, i: nat) returns (n: nat)
    requires i < |values| && ChunksOf(data, values, i)
    ensures n <= |data| && ChunkOf(data[..n], i + 1, values[i]) && ChunksOf(data[n..], values, i + 1)
  {
    hide ChunkOf;
    n :| n <= |data| && ChunkOf(data[..n], i + 1, values[i]) && ChunksOf(data[n..], values, i + 1);
  }

  lemma ChunksStep(values: seq<Value>, i: nat)
    requires Encodable(values) && i < |values|
    ensures Content(values[i]).Some? && ChunksFrom(values, i) == Chunk(i + 1, values[i]) + ChunksFrom(values, i + 1)
  {
    hide Content, Chunk;
  }

  lemma ChunksEnd(data: seq<Utf8.byte>, values: seq<Value>)
    requires Encodable(values)
    ensures ChunksFrom(values, |values|) == [] && (ChunksOf(data, values, |values|) <==> data == [])
  {
    hide Content, ChunkOf;
  }

  lemma SplitAt(data: seq<Utf8.byte>, chunk: seq<Utf8.byte>, rest: seq<Utf8.byte>)
    ensures (chunk + rest)[..|chunk|] == chunk && (chunk + rest)[|chunk|..] == rest
    ensures forall n | 0 <= n <= |data| :: data[..n] + data[n..] == data
  {
  }

  /** A chunk tells its own length, so chunks in a row come apart in one way. */
  lemma {:induction false} ChunksAre(data: seq<Utf8.byte>, values: seq<Value>, i: nat)
    requires Encodable(values) && i <= |values|
    ensures data == ChunksFrom(values, i) <==> ChunksOf(data, values, i)
    decreases |values| - i
  {
    hide *;
    if i == |values| {
      ChunksEnd(data, values);
    } else {
      CountFits(values);
      ChunksStep(values, i);
      var chunk, rest := Chunk(i + 1, values[i]), ChunksFrom(values, i + 1);
      SplitAt(data, chunk, rest);
      if data == ChunksFrom(values, i) {
        ChunkIs(chunk, i + 1, values[i]);
        ChunksAre(rest, values, i + 1);
        FirstChunk(data, values, i, |chunk|);
      }
      if ChunksOf(data, values, i) {
        var n := ChunkCount(data, values, i);
        ChunkIs(data[..n], i + 1, values[i]);
        ChunksAre(data[n..], values, i + 1);
      }
    }
  }

  lemma CountFits(values: seq<Value>)
    requires Encodable(values)
    ensures |values| <= 255
  {
  }

  lemma {:induction false} ChunksNeedContents(data: seq<Utf8.byte>, values: seq<Value>, i: nat)
    requires i <= |values| && ChunksOf(data, values, i)
    ensures forall k | i <= k < |values| :: Content(values[k]).Some?
    decreases |values| - i
  {
    hide Content, ChunkOf;
    if i < |values| {
      var n: nat :| n <= |data| && ChunkOf(data[..n], i + 1, values[i]) && ChunksOf(data[n..], values, i + 1);
      ChunkNeedsContent(data[..n], i + 1, values[i]);
      ChunksNeedContents(data[n..], values, i + 1);
    }
  }

  /** The encoding of one to 255 values is the one row of their chunks. */
  lemma EncodeExact(values: seq<Value>, data: seq<Utf8.byte>)
    ensures Encode(values) == Some(data) <==> 1 <= |values| <= 255 && ChunksOf(data, values, 0)
  {
    hide Content, ChunkOf, ChunksOf, ChunksFrom;
    if 1 <= |values| <= 255 && ChunksOf(data, values, 0) {
      ChunksNeedContents(data, values, 0);
      ChunksAre(data, values, 0);
    }
    if Encodable(values) {
      ChunksAre(data, values, 0);
    }
  }

  // ---- the record of a recipient code ----

  predicate KeyText(s: string) {
    1 <= |s| <= 255 && forall i | 0 <= i < |s| :: NameChar(s[i])
  }

  /** Issued for ten minutes; once it is no longer issued it has a time of ending that is not before its creation. */
  ghost predicate MetadataFine(m: Metadata) {
    && Uuid4(m.codeId) && Uuid4(m.recipientActorId) && Uuid4(m.epoch) && 1 <= m.recordVersion <= MAX_SAFE
    && 0 <= m.createdAt && m.expiresAt == m.createdAt + 10 * 60 * 1000 && m.expiresAt <= MAX_SAFE
    && KeyText(m.lookupKeyVersion) && KeyText(m.macKeyVersion) && |m.lookupDigest| == 32
    && (m.status == "issued" ==> m.terminalAt == None)
    && (m.status != "issued" ==>
          && (m.status == "consumed" || m.status == "replaced" || m.status == "revoked")
          && m.terminalAt.Some? && m.createdAt <= m.terminalAt.value <= MAX_SAFE)
  }

  /** The 13 fields of a record, place by place. */
  ghost predicate RecordPlaces(v: seq<Value>, m: Metadata) {
    && |v| == 13 && v[0] == Words("kakei_app") && v[1] == Words("auth-recipient-code-state/v1")
    && v[2] == Words(m.codeId) && v[3] == Words(m.recipientActorId) && Number(v[4], m.recordVersion)
    && v[5] == Words(m.epoch) && v[6] == Words(m.lookupKeyVersion) && v[7] == Binary(m.lookupDigest)
    && Number(v[8], m.createdAt) && Number(v[9], m.expiresAt) && v[10] == Words(m.status)
    && (if m.terminalAt == None then v[11] == Absent else Number(v[11], m.terminalAt.value))
    && v[12] == Words(m.macKeyVersion)
  }

  lemma KeyIs(s: string)
    ensures KeyVersion(s) <==> KeyText(s)
  {
    forall c: char ensures NameChar(c) <==> KeyVersionChar(c) {
    }
    hide NameChar, KeyVersionChar;
  }

  lemma MetadataIs(m: Metadata)
    ensures Valid(m) <==> MetadataFine(m)
  {
    UuidIs(m.codeId);
    UuidIs(m.recipientActorId);
    UuidIs(m.epoch);
    KeyIs(m.lookupKeyVersion);
    KeyIs(m.macKeyVersion);
    hide UuidV4, Uuid4, KeyVersion, KeyText;
  }

  lemma FieldsPlaced(v: seq<Value>, m: Metadata)
    requires Valid(m)
    ensures v == Fields(m) <==> RecordPlaces(v, m)
  {
    hide *;
    NumbersOf(m);
    if |v| == 13 {
      NumberIs(v[4], m.recordVersion);
      NumberIs(v[8], m.createdAt);
      NumberIs(v[9], m.expiresAt);
      if m.terminalAt.Some? {
        NumberIs(v[11], m.terminalAt.value);
      }
    }
    FieldsListed(v, m);
    PlacesListed(v, m);
  }

  lemma FieldsListed(v: seq<Value>, m: Metadata)
    requires Valid(m) && m.recordVersion >= 0 && m.createdAt >= 0 && m.expiresAt >= 0
    requires m.terminalAt.Some? ==> m.terminalAt.value >= 0
    ensures v == Fields(m) <==>
            |v| == 13 && v[0] == Words("kakei_app") && v[1] == Words("auth-recipient-code-state/v1") &&
            v[2] == Words(m.codeId) && v[3] == Words(m.recipientActorId) && v[4] == Words(Decimal(m.recordVersion)) &&
            v[5] == Words(m.epoch) && v[6] == Words(m.lookupKeyVersion) && v[7] == Binary(m.lookupDigest) &&
            v[8] == Words(Decimal(m.createdAt)) && v[9] == Words(Decimal(m.expiresAt)) && v[10] == Words(m.status) &&
            v[11] == (if m.terminalAt == None then Absent else Words(Decimal(m.terminalAt.value))) &&
            v[12] == Words(m.macKeyVersion)
  {
    hide Valid, Decimal;
  }

  lemma PlacesListed(v: seq<Value>, m: Metadata)
    ensures RecordPlaces(v, m) <==>
            |v| == 13 && v[0] == Words("kakei_app") && v[1] == Words("auth-recipient-code-state/v1") &&
            v[2] == Words(m.codeId) && v[3] == Words(m.recipientActorId) && Number(v[4], m.recordVersion) &&
            v[5] == Words(m.epoch) && v[6] == Words(m.lookupKeyVersion) && v[7] == Binary(m.lookupDigest) &&
            Number(v[8], m.createdAt) && Number(v[9], m.expiresAt) && v[10] == Words(m.status) &&
            (if m.terminalAt == None then v[11] == Absent else Number(v[11], m.terminalAt.value)) &&
            v[12] == Words(m.macKeyVersion)
  {
    hide Number;
  }

  lemma NumbersOf(m: Metadata)
    requires Valid(m)
    ensures m.recordVersion >= 0 && m.createdAt >= 0 && m.expiresAt >= 0
    ensures m.terminalAt.Some? ==> m.terminalAt.value >= 0
  {
    hide UuidV4, KeyVersion;
  }

  /** The bytes are the chunks of the record's 13 fields. */
  ghost predicate RecordBytes(data: seq<Utf8.byte>, m: Metadata) {
    exists v :: RecordPlaces(v, m) && ChunksOf(data, v, 0)
  }

  /** A record is written as the chunks of its fields in their places, and only those bytes read as it. */
  lemma RecordExact(m: Metadata, data: seq<Utf8.byte>)
    ensures EncodeRecord(m) == Some(data) <==> MetadataFine(m) && RecordBytes(data, m)
    ensures DecodeRecord(data) == Some(m) <==> MetadataFine(m) && RecordBytes(data, m)
  {
    hide *;
    MetadataIs(m);
    EncodesWhenValid(m);
    if Valid(m) {
      BytesOfFields(m, data);
      DecodeInvertsEncodeRecord(m);
    }
    if DecodeRecord(data).Some? {
      EncodeInvertsDecodeRecord(data);
    }
  }

  lemma EncodesWhenValid(m: Metadata)
    ensures EncodeRecord(m).Some? ==> Valid(m)
    ensures Valid(m) ==> EncodeRecord(m) == Encode(Fields(m))
  {
    hide Valid, Encode, Fields;
  }

  lemma BytesOfFields(m: Metadata, data: seq<Utf8.byte>)
    requires Valid(m)
    ensures Encode(Fields(m)) == Some(data) <==> RecordBytes(data, m)
  {
    EncodeExact(Fields(m), data);
    FieldsPlaced(Fields(m), m);
    hide Valid, Fields, Encode, RecordPlaces, ChunksOf;
    forall v | RecordPlaces(v, m) ensures v == Fields(m) {
      FieldsPlaced(v, m);
    }
  }
}
