/** The 13-field canonical form of a recipient code's metadata. */
module RecipientCodeRecords {
  import opened Outcomes
  import opened Text
  import Utf8
  import opened Tlv

  datatype Metadata = Metadata(
    codeId: string, recipientActorId: string, recordVersion: int, epoch: string, createdAt: int, expiresAt: int,
    status: string, terminalAt: Option<int>, lookupKeyVersion: string, lookupDigest: seq<Utf8.byte>,
    macKeyVersion: string)

  const LIFETIME: int := 600_000

  // ---- what a record must satisfy ----

  predicate UuidV4(s: string) {
    CanonicalUuid(s) && s[14] == '4' && (s[19] == '8' || s[19] == '9' || s[19] == 'a' || s[19] == 'b')
  }

  predicate KeyVersionChar(c: char) {
    'A' <= c <= 'Z' || 'a' <= c <= 'z' || '0' <= c <= '9' || c == '.' || c == '_' || c == ':' || c == '-'
  }

  predicate KeyVersion(s: string) {
    1 <= |s| <= 255 && forall i | 0 <= i < |s| :: KeyVersionChar(s[i])
  }

  predicate KnownStatus(s: string) {
    s == "issued" || s == "consumed" || s == "replaced" || s == "revoked"
  }

  predicate Instant(n: int) {
    0 <= n <= MAX_SAFE
  }

  predicate Valid(m: Metadata) {
    && UuidV4(m.codeId) && UuidV4(m.recipientActorId) && UuidV4(m.epoch)
    && 1 <= m.recordVersion <= MAX_SAFE && Instant(m.createdAt) && Instant(m.expiresAt)
    && m.expiresAt - m.createdAt == LIFETIME && KnownStatus(m.status)
    && (if m.status == "issued" then m.terminalAt.None?
        else m.terminalAt.Some? && Instant(m.terminalAt.value) && m.terminalAt.value >= m.createdAt)
    && KeyVersion(m.lookupKeyVersion) && KeyVersion(m.macKeyVersion) && |m.lookupDigest| == 32
  }

  // ---- decimal numbers ----

  function DigitChar(d: int): (c: char)
    requires 0 <= d < 10
    ensures '0' <= c <= '9' && c as int - '0' as int == d
  {
    ('0' as int + d) as char
  }

  function Decimal(n: nat): (s: string)
    ensures s != ""
  {
    if n < 10 then [DigitChar(n)] else Decimal(n / 10) + [DigitChar(n % 10)]
  }

  predicate AllDigits(s: string) {
    forall i | 0 <= i < |s| :: '0' <= s[i] <= '9'
  }

  function NumberOf(s: string): nat
    requires AllDigits(s)
  {
    if s == "" then 0 else NumberOf(s[..|s| - 1]) * 10 + (s[|s| - 1] as int - '0' as int)
  }

  /** No sign, no leading zero, no exponent, within the safe integers. */
  function ParseDecimal(s: string): Option<int> {
    if s == "" || !AllDigits(s) || (s[0] == '0' && s != "0") || NumberOf(s) > MAX_SAFE then None else Some(NumberOf(s))
  }

  lemma {:induction false} DecimalShape(n: nat)
    ensures AllDigits(Decimal(n)) && NumberOf(Decimal(n)) == n && (Decimal(n)[0] == '0' ==> n == 0)
  {
    if n >= 10 {
      DecimalShape(n / 10);
      var s := Decimal(n);
      assert s[..|s| - 1] == Decimal(n / 10) && s[0] == Decimal(n / 10)[0];
    } else {
      assert [DigitChar(n)][..0] == [];
      assert NumberOf([DigitChar(n)]) == NumberOf([]) * 10 + n;
    }
  }

  lemma DecimalParses(n: int)
    requires 0 <= n <= MAX_SAFE
    ensures ParseDecimal(Decimal(n)) == Some(n)
  {
    DecimalShape(n);
    assert n == 0 ==> Decimal(n) == "0";
  }

  lemma {:induction false} ParsedIsDecimal(s: string)
    requires s != "" && AllDigits(s) && (s[0] != '0' || s == "0")
    ensures Decimal(NumberOf(s)) == s && (s != "0" ==> NumberOf(s) > 0)
  {
    var init, last := s[..|s| - 1], s[|s| - 1];
    if |s| == 1 {
      assert init == "" && NumberOf(s) == NumberOf(init) * 10 + (last as int - '0' as int);
      assert s == [last];
    } else {
      ParsedIsDecimal(init);
      assert NumberOf(s) >= 10 && NumberOf(s) / 10 == NumberOf(init);
      assert s == init + [last];
    }
  }

  function Power(k: nat): nat {
    if k == 0 then 1 else 10 * Power(k - 1)
  }

  lemma {:induction false} DecimalLength(n: nat, k: nat)
    requires k >= 1 && n < Power(k)
    ensures |Decimal(n)| <= k
  {
    if n >= 10 {
      assert Power(1) == 10 * Power(0);
      assert k >= 2;
      DecimalLength(n / 10, k - 1);
    }
  }

  lemma SafeLength(n: int)
    requires 0 <= n <= MAX_SAFE
    ensures |Decimal(n)| <= 16
  {
    assert Power(4) == 10000 by { assert Power(1) == 10; assert Power(2) == 100; assert Power(3) == 1000; }
    PowerAdds(4, 4);
    PowerAdds(8, 8);
    DecimalLength(n, 16);
  }

  lemma {:induction false} PowerAdds(j: nat, k: nat)
    ensures Power(j + k) == Power(j) * Power(k)
  {
    if k > 0 {
      PowerAdds(j, k - 1);
      assert Power(j + k) == 10 * Power(j + k - 1);
    }
  }

  // ---- plain texts ----

  predicate Plain(s: string) {
    1 <= |s| <= 255 && forall i | 0 <= i < |s| :: 0x21 <= s[i] as int <= 0x7E
  }

  lemma {:induction false} PlainBytes(s: string)
    requires forall i | 0 <= i < |s| :: 0x21 <= s[i] as int <= 0x7E
    ensures |Utf8.Encode(s)| == |s|
  {
    if s != "" {
      PlainBytes(s[1..]);
    }
  }

  lemma PlainEncodes(s: string)
    requires Plain(s)
    ensures Content(Words(s)).Some?
  {
    PlainBytes(s);
  }

  lemma UuidPlain(s: string)
    requires UuidV4(s)
    ensures Plain(s)
  {
    forall i | 0 <= i < |s| ensures 0x21 <= s[i] as int <= 0x7E {
      assert s[i] == '-' || LowerHex(s[i]);
    }
  }

  lemma KeyVersionPlain(s: string)
    requires KeyVersion(s)
    ensures Plain(s)
  {
    forall i | 0 <= i < |s| ensures 0x21 <= s[i] as int <= 0x7E {
      assert KeyVersionChar(s[i]);
    }
  }

  lemma DecimalPlain(n: int)
    requires 0 <= n <= MAX_SAFE
    ensures Plain(Decimal(n))
  {
    DecimalShape(n);
    SafeLength(n);
  }

  // ---- the record ----

  const APP: string := "kakei_app"
  const PURPOSE: string := "auth-recipient-code-state/v1"

  function Terminal(at: Option<int>): Value
    requires at.Some? ==> at.value >= 0
  {
    match at
    case None => Absent
    case Some(n) => Words(Decimal(n))
  }

  function Fields(m: Metadata): (v: seq<Value>)
    requires Valid(m)
    ensures |v| == 13
  {
    [Words(APP), Words(PURPOSE), Words(m.codeId), Words(m.recipientActorId), Words(Decimal(m.recordVersion)),
     Words(m.epoch),
     Words(m.lookupKeyVersion), Binary(m.lookupDigest), Words(Decimal(m.createdAt)), Words(Decimal(m.expiresAt)),
     Words(m.status), Terminal(m.terminalAt), Words(m.macKeyVersion)]
  }

  const KINDS: seq<FieldKind> :=
    [TextField, TextField, TextField, TextField, TextField, TextField, TextField, BinaryField, TextField, TextField,
     TextField,
     NullableTextField, TextField]

  function EncodeRecord(m: Metadata): Option<seq<Utf8.byte>> {
    if !Valid(m) then None else Encode(Fields(m))
  }

  function ParseTerminal(v: Value): Option<Option<int>> {
    match v
    case Absent => Some(None)
    case Words(s) => if ParseDecimal(s).Some? then Some(Some(ParseDecimal(s).value)) else None
    case Binary(_) => None
  }

  function Assembled(v: seq<Value>): Option<Metadata>
    requires Fits(v, KINDS)
  {
    if !v[2].Words? || !v[3].Words? || !v[4].Words? || !v[5].Words? || !v[6].Words? || !v[8].Words? || !v[9].Words? ||
       !v[10].Words? || !v[12].Words? || !v[7].Binary? then None
    else
      var version, created, expires := ParseDecimal(v[4].text), ParseDecimal(v[8].text), ParseDecimal(v[9].text);
      var terminal := ParseTerminal(v[11]);
      if v[0] != Words(APP) || v[1] != Words(PURPOSE) || version.None? || created.None? || expires.None? ||
         terminal.None?
      then None
      else
        var m := Metadata(v[2].text, v[3].text, version.value, v[5].text, created.value, expires.value, v[10].text,
                          terminal.value,
                          v[6].text, v[7].bytes, v[12].text);
        if Valid(m) then Some(m) else None
  }

  function DecodeRecord(data: seq<Utf8.byte>): Option<Metadata> {
    match Decode(data, KINDS)
    case None => None
    case Some(v) => if Fits(v, KINDS) then Assembled(v) else None
  }

  // ---- inverses ----

  lemma FieldsFit(m: Metadata)
    requires Valid(m)
    ensures Fits(Fields(m), KINDS)
  {
    hide UuidV4, KeyVersion, KnownStatus;
  }

  predicate PlainOrTerminal(v: Value) {
    match v
    case Absent => true
    case Words(s) => Plain(s)
    case Binary(_) => false
  }

  lemma FieldsPlain(m: Metadata)
    requires Valid(m)
    ensures forall i | 0 <= i < 13 && i != 7 :: PlainOrTerminal(Fields(m)[i])
  {
    UuidPlain(m.codeId);
    UuidPlain(m.recipientActorId);
    UuidPlain(m.epoch);
    KeyVersionPlain(m.lookupKeyVersion);
    KeyVersionPlain(m.macKeyVersion);
    DecimalPlain(m.recordVersion);
    DecimalPlain(m.createdAt);
    DecimalPlain(m.expiresAt);
    if m.terminalAt.Some? {
      DecimalPlain(m.terminalAt.value);
    }
    StatusPlain(m.status);
    Constants();
    hide UuidV4, KeyVersion, Decimal, Plain, KnownStatus;
  }

  lemma StatusPlain(s: string)
    requires KnownStatus(s)
    ensures Plain(s)
  {
  }

  lemma FieldsEncode(m: Metadata)
    requires Valid(m)
    ensures Encode(Fields(m)).Some?
  {
    FieldsPlain(m);
    DigestEncodes(m.lookupDigest);
    assert Fields(m)[7] == Binary(m.lookupDigest);
    hide Plain, Content, Valid, Fields;
    forall i | 0 <= i < 13 ensures Content(Fields(m)[i]).Some? {
      if i != 7 {
        assert PlainOrTerminal(Fields(m)[i]);
        if Fields(m)[i].Words? {
          PlainEncodes(Fields(m)[i].text);
        }
      }
    }
  }

  lemma Constants()
    ensures Plain(APP) && Plain(PURPOSE)
  {
  }

  lemma DigestEncodes(digest: seq<Utf8.byte>)
    requires |digest| == 32
    ensures Content(Binary(digest)).Some? && Content(Absent).Some?
  {
  }

  lemma FieldsAssemble(m: Metadata)
    requires Valid(m)
    ensures Fits(Fields(m), KINDS) && Assembled(Fields(m)) == Some(m)
  {
    FieldsFit(m);
    DecimalParses(m.recordVersion);
    DecimalParses(m.createdAt);
    DecimalParses(m.expiresAt);
    if m.terminalAt.Some? {
      DecimalParses(m.terminalAt.value);
    }
    hide UuidV4, KeyVersion, KnownStatus, Decimal, ParseDecimal;
  }

  /** Every valid record has an encoding, and decoding gives the record back. */
  lemma DecodeInvertsEncodeRecord(m: Metadata)
    requires Valid(m)
    ensures EncodeRecord(m).Some? && DecodeRecord(EncodeRecord(m).value) == Some(m)
  {
    FieldsEncode(m);
    FieldsAssemble(m);
    hide Valid, Fields, Assembled, Fits, Decode, Encode;
    DecodeInvertsEncode(Fields(m), KINDS);
  }

  lemma TextIsDecimal(s: string)
    requires ParseDecimal(s).Some?
    ensures Decimal(ParseDecimal(s).value) == s
  {
    ParsedIsDecimal(s);
  }

  lemma AssembledFields(v: seq<Value>)
    requires Fits(v, KINDS) && Assembled(v).Some?
    ensures Valid(Assembled(v).value) && Fields(Assembled(v).value) == v
  {
    hide UuidV4, KeyVersion, KnownStatus, Decimal, ParseDecimal;
    TextIsDecimal(v[4].text);
    TextIsDecimal(v[8].text);
    TextIsDecimal(v[9].text);
    if v[11].Words? {
      TextIsDecimal(v[11].text);
    }
  }

  /** Every accepted byte string is the encoding of the record it decodes to. */
  lemma EncodeInvertsDecodeRecord(data: seq<Utf8.byte>)
    requires DecodeRecord(data).Some?
    ensures Valid(DecodeRecord(data).value) && EncodeRecord(DecodeRecord(data).value) == Some(data)
  {
    hide Valid, Fields, Assembled, Fits, Decode, Encode;
    var v := Decode(data, KINDS).value;
    AssembledFields(v);
    EncodeInvertsDecode(data, KINDS);
  }
}
