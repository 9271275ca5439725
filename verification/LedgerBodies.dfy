/** The bytes a ledger entry's MAC and hash are taken over, field by field. */
module LedgerBodies {
  import opened Outcomes
  import opened Text
  import Utf8
  import opened Tlv
  import opened RecipientCodeRecords
  import opened DeletionLedger

  // ---- decimal texts ----

  /** The text writes the number in decimal, without a leading zero. */
  predicate Writes(s: string, n: int) {
    && s != "" && '0' <= s[|s| - 1] <= '9' && n >= 0 && n % 10 == s[|s| - 1] as int - '0' as int
    && if n < 10 then |s| == 1 else Writes(s[..|s| - 1], n / 10)
  }

  lemma {:induction false} DecimalWrites(s: string, n: nat)
    ensures Writes(s, n) <==> s == Decimal(n)
  {
    if n >= 10 {
      if s != "" {
        DecimalWrites(s[..|s| - 1], n / 10);
        assert s == s[..|s| - 1] + [s[|s| - 1]];
      }
      var d := Decimal(n);
      assert d[..|d| - 1] == Decimal(n / 10);
    } else if Writes(s, n) {
      assert s == [s[0]] && s[0] as int == Decimal(n)[0] as int;
    }
  }

  // ---- the fields of a body ----

  const DELETION_KINDS: seq<FieldKind> :=
    [TextField, TextField, TextField, TextField, TextField, TextField, TextField, TextField, TextField, BinaryField,
     TextField, TextField, TextField, TextField]
  const RECOVERY_KINDS: seq<FieldKind> :=
    [TextField, TextField, TextField, TextField, TextField, TextField, TextField, TextField, TextField, TextField,
     BinaryField]

  ghost predicate Number(v: Value, n: int) {
    v.Words? && Writes(v.text, n)
  }

  ghost predicate OpeningPlaces(v: seq<Value>, e: Entry, kind: string) {
    && |v| >= 8 && v[0] == Words("kakei_app") && v[1] == Words("auth-deletion-ledger/v1")
    && v[2] == Words("authentication/v1") && Number(v[3], e.sequence) && v[4] == Words(e.previousHash)
    && v[5] == Words(kind) && v[6] == Words(e.record.operationId) && v[7] == Words(e.macKeyVersion)
  }

  /** The fields of an entry, place by place. */
  ghost predicate Places(v: seq<Value>, e: Entry) {
    match e.record
    case Deletion(_, keyVersion, digest, preparedAt, version, state, target) =>
      && |v| == 14 && OpeningPlaces(v, e, "actor-deletion") && v[8] == Words(keyVersion) && v[9] == Binary(digest)
      && Number(v[10], preparedAt) && Number(v[11], version)
      && v[12] == Words(if state == Prepared then "prepared" else "complete") && v[13] == Words(target)
    case Recovery(_, epoch, completedAt, digest) =>
      && |v| == 11 && OpeningPlaces(v, e, "recovery") && v[8] == Words(epoch) && Number(v[9], completedAt)
      && v[10] == Binary(digest)
  }

  /** The bytes decode to the entry's fields. */
  ghost predicate Bears(body: seq<Utf8.byte>, e: Entry) {
    var read := Decode(body, if e.record.Deletion? then DELETION_KINDS else RECOVERY_KINDS);
    read.Some? && Places(read.value, e)
  }

  lemma NumberIs(v: Value, n: nat)
    ensures Number(v, n) <==> v == Words(Decimal(n))
  {
    if v.Words? {
      DecimalWrites(v.text, n);
    }
    hide Writes, Decimal;
  }

  lemma OpeningIs(v: seq<Value>, e: Entry)
    requires e.sequence >= 1 && RecordValid(e.record) && |v| >= 8
    ensures var kind := if e.record.Deletion? then "actor-deletion" else "recovery";
            OpeningPlaces(v, e, kind) <==>
            v[..8] == [Words("kakei_app"), Words("auth-deletion-ledger/v1"), Words("authentication/v1"),
                       Words(Decimal(e.sequence)), Words(e.previousHash), Words(kind), Words(e.record.operationId),
                       Words(e.macKeyVersion)]
  {
    NumberIs(v[3], e.sequence);
    hide Number, RecordValid, Decimal;
  }

  lemma FieldsAre(e: Entry)
    requires e.sequence >= 1 && RecordValid(e.record)
    ensures var fields := BodyFields(e.sequence, e.previousHash, e.record, e.macKeyVersion);
            && |fields| >= 8 && fields[8..] == Facts(e.record)
            && fields[..8] == [Words("kakei_app"), Words("auth-deletion-ledger/v1"), Words("authentication/v1"),
                               Words(Decimal(e.sequence)), Words(e.previousHash),
                               Words(if e.record.Deletion? then "actor-deletion" else "recovery"),
                               Words(e.record.operationId), Words(e.macKeyVersion)]
  {
    hide RecordValid, Decimal, Facts;
  }

  lemma FactsAre(v: seq<Value>, e: Entry)
    requires RecordValid(e.record) && |v| >= 8
    ensures v[8..] == Facts(e.record) <==>
            match e.record
            case Deletion(_, keyVersion, digest, preparedAt, version, state, target) =>
              && |v| == 14 && v[8] == Words(keyVersion) && v[9] == Binary(digest) && Number(v[10], preparedAt)
              && Number(v[11], version) && v[12] == Words(if state == Prepared then "prepared" else "complete")
              && v[13] == Words(target)
            case Recovery(_, epoch, completedAt, digest) =>
              |v| == 11 && v[8] == Words(epoch) && Number(v[9], completedAt) && v[10] == Binary(digest)
  {
    match e.record
    case Deletion(_, _, _, preparedAt, version, _, _) =>
      if |v| == 14 {
        NumberIs(v[10], preparedAt);
        NumberIs(v[11], version);
        hide Number, Decimal;
        assert v[8..] == [v[8], v[9], v[10], v[11], v[12], v[13]];
      }
    case Recovery(_, _, completedAt, _) =>
      if |v| == 11 {
        NumberIs(v[9], completedAt);
        hide Number, Decimal;
        assert v[8..] == [v[8], v[9], v[10]];
      }
  }

  lemma PlacesAre(v: seq<Value>, e: Entry)
    requires e.sequence >= 1 && RecordValid(e.record)
    ensures Places(v, e) <==> v == BodyFields(e.sequence, e.previousHash, e.record, e.macKeyVersion)
  {
    FieldsAre(e);
    if |v| >= 8 {
      OpeningIs(v, e);
      FactsAre(v, e);
      hide Facts, BodyFields, OpeningPlaces, Number, RecordValid, Decimal;
      assert v == v[..8] + v[8..];
      var fields := BodyFields(e.sequence, e.previousHash, e.record, e.macKeyVersion);
      assert fields == fields[..8] + fields[8..];
    }
  }

  lemma KindsFit(e: Entry)
    requires e.sequence >= 1 && RecordValid(e.record)
    ensures Fits(BodyFields(e.sequence, e.previousHash, e.record, e.macKeyVersion),
                 if e.record.Deletion? then DELETION_KINDS else RECOVERY_KINDS)
  {
    hide RecordValid, Decimal;
  }

  /** The body of a valid entry is the only byte string that decodes to the entry's fields in their places. */
  lemma BodyExact(e: Entry, body: seq<Utf8.byte>)
    requires EntryValid(e)
    ensures Body(e) == Some(body) <==> Bears(body, e)
  {
    EntrySays(e);
    hide *;
    BodyIs(e);
    FieldsExact(e, body);
  }

  lemma FieldsExact(e: Entry, body: seq<Utf8.byte>)
    requires e.sequence >= 1 && RecordValid(e.record)
    ensures Encode(BodyFields(e.sequence, e.previousHash, e.record, e.macKeyVersion)) == Some(body) <==> Bears(body, e)
  {
    hide *;
    var fields := BodyFields(e.sequence, e.previousHash, e.record, e.macKeyVersion);
    var kinds := if e.record.Deletion? then DELETION_KINDS else RECOVERY_KINDS;
    KindsFit(e);
    BearsSays(body, e);
    if Encode(fields).Some? {
      DecodeInvertsEncode(fields, kinds);
      PlacesAre(Decode(Encode(fields).value, kinds).value, e);
    }
    if Decode(body, kinds).Some? {
      EncodeInvertsDecode(body, kinds);
      PlacesAre(Decode(body, kinds).value, e);
    }
  }

  lemma EntrySays(e: Entry)
    requires EntryValid(e)
    ensures e.sequence >= 1 && RecordValid(e.record)
  {
  }

  lemma BodyIs(e: Entry)
    requires EntryValid(e)
    ensures Body(e) == Encode(BodyFields(e.sequence, e.previousHash, e.record, e.macKeyVersion))
  {
    hide Encode, BodyFields;
  }

  lemma BearsSays(body: seq<Utf8.byte>, e: Entry)
    ensures var read := Decode(body, if e.record.Deletion? then DELETION_KINDS else RECOVERY_KINDS);
            Bears(body, e) <==> read.Some? && Places(read.value, e)
  {
    hide Decode, Places;
  }

  // ---- valid entries ----

  predicate HexDigit(c: char) {
    '0' <= c <= '9' || 'a' <= c <= 'f'
  }

  predicate Hash64(s: string) {
    |s| == 64 && forall i | 0 <= i < 64 :: HexDigit(s[i])
  }

  predicate NameChar(c: char) {
    'A' <= c <= 'Z' || 'a' <= c <= 'z' || '0' <= c <= '9' || c in "._:-"
  }

  predicate NameText(s: string) {
    s != "" && forall i | 0 <= i < |s| :: NameChar(s[i])
  }

  /** A version 4 UUID in lower case. */
  predicate Uuid4(s: string) {
    && |s| == 36 && s[8] == '-' && s[13] == '-' && s[18] == '-' && s[23] == '-' && s[14] == '4' && s[19] in "89ab"
    && forall i | 0 <= i < 36 && i != 8 && i != 13 && i != 18 && i != 23 :: HexDigit(s[i])
  }

  ghost predicate RecordFine(r: Record) {
    match r
    case Deletion(id, keyVersion, digest, preparedAt, version, _, target) =>
      && Uuid4(id) && NameText(keyVersion) && |digest| == 32 && 0 <= preparedAt <= MAX_SAFE && 1 <= version <= MAX_SAFE
      && NameText(target) && |target| <= 256
    case Recovery(id, epoch, completedAt, digest) =>
      Uuid4(id) && Uuid4(epoch) && 0 <= completedAt <= MAX_SAFE && |digest| == 32
  }

  ghost predicate EntryFine(e: Entry) {
    && 1 <= e.sequence <= MAX_SAFE && Hash64(e.previousHash) && RecordFine(e.record) && NameText(e.macKeyVersion)
    && |e.mac| == 32 && Hash64(e.hash)
  }

  lemma UuidIs(s: string)
    ensures UuidV4(s) <==> Uuid4(s)
  {
    forall c: char ensures HexDigit(c) <==> LowerHex(c) {
    }
    hide HexDigit, LowerHex;
  }

  lemma NameIs(s: string)
    ensures KeyName(s) <==> NameText(s)
  {
    forall c: char ensures NameChar(c) <==> KeyVersionChar(c) {
    }
    hide NameChar, KeyVersionChar;
  }

  lemma HashIs(s: string)
    ensures HexHash(s) <==> Hash64(s)
  {
  }

  lemma RecordIs(r: Record)
    ensures RecordValid(r) <==> RecordFine(r)
  {
    UuidIs(r.operationId);
    match r
    case Deletion(_, keyVersion, _, _, _, _, target) =>
      NameIs(keyVersion);
      NameIs(target);
      hide UuidV4, Uuid4, KeyName, NameText;
    case Recovery(_, epoch, _, _) =>
      UuidIs(epoch);
      hide UuidV4, Uuid4;
  }

  lemma EntryExact(e: Entry)
    ensures EntryValid(e) <==> EntryFine(e)
  {
    RecordIs(e.record);
    NameIs(e.macKeyVersion);
    HashIs(e.previousHash);
    HashIs(e.hash);
    hide RecordValid, RecordFine, KeyName, NameText, HexHash, Hash64;
  }
}
