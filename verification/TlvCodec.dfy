/** The buffer-writing encoder and the offset-advancing decoder of the TLV form. */
module TlvCodec {
  import opened Outcomes
  import Utf8
  import opened Tlv

  /** The chunks of the first `k` values. */
  function ChunksUpTo(values: seq<Value>, k: nat): seq<Utf8.byte>
    requires Encodable(values) && k <= |values|
  {
    if k == 0 then [] else ChunksUpTo(values, k - 1) + Chunk(k, values[k - 1])
  }

  lemma {:induction false} ChunksJoin(values: seq<Value>, k: nat)
    requires Encodable(values) && k <= |values|
    ensures ChunksUpTo(values, k) + ChunksFrom(values, k) == ChunksFrom(values, 0)
  {
    hide Chunk, Content;
    if k > 0 {
      ChunksJoin(values, k - 1);
      var head, chunk, tail := ChunksUpTo(values, k - 1), Chunk(k, values[k - 1]), ChunksFrom(values, k);
      assert (head + chunk) + tail == head + (chunk + tail);
    }
  }

  lemma AllChunks(values: seq<Value>)
    requires Encodable(values)
    ensures Encode(values) == Some(ChunksUpTo(values, |values|))
  {
    hide Chunk, Content;
    ChunksJoin(values, |values|);
    assert ChunksFrom(values, |values|) == [];
    var all := ChunksUpTo(values, |values|);
    assert all + [] == all;
  }

  /** Copies the chunk into the buffer at the offset, and touches nothing else. */
  method Put(result: array<Utf8.byte>, chunk: seq<Utf8.byte>, offset: nat)
    requires offset + |chunk| <= result.Length
    modifies result
    ensures result[..offset] == old(result[..offset])
    ensures result[offset..offset + |chunk|] == chunk
  {
    for k := 0 to |chunk|
      invariant result[..offset] == old(result[..offset])
      invariant result[offset..offset + k] == chunk[..k]
    {
      result[offset + k] := chunk[k];
      assert result[offset..offset + k + 1] == result[offset..offset + k] + [chunk[k]];
      assert chunk[..k + 1] == chunk[..k] + [chunk[k]];
    }
  }

  method Chunks(values: seq<Value>) returns (chunks: Option<seq<seq<Utf8.byte>>>, total: nat)
    requires 1 <= |values| <= 255
    ensures chunks.Some? <==> Encodable(values)
    ensures chunks.Some? ==> |chunks.value| == |values| && total == |ChunksUpTo(values, |values|)|
    ensures chunks.Some? ==> forall j | 0 <= j < |values| :: chunks.value[j] == Chunk(j + 1, values[j])
  {
    hide Content, Chunk;
    var done: seq<seq<Utf8.byte>> := [];
    total := 0;
    for k := 0 to |values|
      invariant |done| == k && forall j | 0 <= j < k :: Content(values[j]).Some? && done[j] == Chunk(j + 1, values[j])
      invariant Encodable(values) ==> total == |ChunksUpTo(values, k)|
    {
      var content := Content(values[k]);
      if content.None? {
        return None, total;
      }
      var chunk := Chunk(k + 1, values[k]);
      done, total := done + [chunk], total + |chunk|;
    }
    chunks := Some(done);
  }

  method EncodeTlv(values: seq<Value>) returns (r: Option<array<Utf8.byte>>)
    ensures r.Some? <==> Encode(values).Some?
    ensures r.Some? ==> fresh(r.value) && Encode(values) == Some(r.value[..])
  {
    hide Content, Chunk;
    if |values| == 0 || |values| > 255 {
      return None;
    }
    var chunks, total := Chunks(values);
    if chunks.None? {
      return None;
    }
    AllChunks(values);
    var result := new Utf8.byte[total](_ => 0);
    var offset := 0;
    for k := 0 to |values|
      invariant offset == |ChunksUpTo(values, k)| <= total && result[..offset] == ChunksUpTo(values, k)
    {
      PrefixShorter(values, k + 1, |values|);
      Put(result, chunks.value[k], offset);
      assert result[..offset + |chunks.value[k]|] == result[..offset] + result[offset..offset + |chunks.value[k]|];
      offset := offset + |chunks.value[k]|;
    }
    assert result[..total] == result[..];
    r := Some(result);
  }

  lemma {:induction false} PrefixShorter(values: seq<Value>, k: nat, m: nat)
    requires Encodable(values) && k <= m <= |values|
    ensures |ChunksUpTo(values, k)| <= |ChunksUpTo(values, m)|
  {
    hide Chunk, Content;
    if k < m {
      PrefixShorter(values, k, m - 1);
    }
  }

  /** What the fields still to be read make of the fields already read. */
  function Completed(read: seq<Value>, rest: Option<seq<Value>>): Option<seq<Value>> {
    match rest
    case None => None
    case Some(values) => Some(read + values)
  }

  lemma CompletedParts(read: seq<Value>, more: seq<Value>, rest: Option<seq<Value>>)
    ensures Completed(read, Completed(more, rest)) == Completed(read + more, rest)
    ensures Completed([], rest) == rest
  {
    if rest.Some? {
      assert read + (more + rest.value) == (read + more) + rest.value;
      assert [] + rest.value == rest.value;
    }
  }

  /** The value of the field that starts at the offset. */
  function FieldAt(data: seq<Utf8.byte>, offset: nat, kind: FieldKind, tag: Utf8.byte): (v: Option<Value>)
    requires offset <= |data|
    ensures v.Some? ==> offset + 6 <= |data| && offset + 6 + ReadU32(data[offset + 2..]) <= |data|
  {
    if offset + 6 > |data| || data[offset] != tag then None
    else
      var length := ReadU32(data[offset + 2..]);
      if length > |data| - offset - 6 then None
        else DecodeField(kind, data[offset + 1], data[offset + 6..offset + 6 + length])
  }

  /** One field at the offset: its value and the next offset. */
  method ReadField(data: array<Utf8.byte>, offset: nat, kind: FieldKind, tag: Utf8.byte)
    returns (v: Option<Value>, next: nat)
    requires offset <= data.Length
    ensures v.Some? <==> FieldAt(data[..], offset, kind, tag).Some?
    ensures v.Some? ==>
            next == offset + 6 + ReadU32(data[offset + 2..]) <= data.Length && v == FieldAt(data[..], offset, kind, tag)
  {
    next := offset;
    if offset + 6 > data.Length || data[offset] != tag {
      return None, next;
    }
    var presence, length := data[offset + 1], ReadU32(data[offset + 2..]);
    next := offset + 6;
    if length > data.Length - next {
      return None, next;
    }
    var content := data[next..next + length];
    next := next + length;
    v := DecodeField(kind, presence, content);
  }

  /** Reading on from the offset is reading the field there, then reading on behind it. */
  lemma ReadOn(data: seq<Utf8.byte>, offset: nat, kinds: seq<FieldKind>, k: nat)
    requires offset <= |data| && k < |kinds| <= 255
    ensures var v := FieldAt(data, offset, kinds[k], k + 1);
            DecodeFrom(data[offset..], kinds, k)
            == if v.None? then None
               else Completed([v.value], DecodeFrom(data[offset + 6 + ReadU32(data[offset + 2..])..], kinds, k + 1))
  {
    hide DecodeField, ReadU32;
    if offset + 6 <= |data| {
      var rest := data[offset..];
      assert rest[2..] == data[offset + 2..];
      var length := ReadU32(rest[2..]);
      if length <= |rest| - 6 {
        assert rest[6..6 + length] == data[offset + 6..offset + 6 + length];
        assert rest[6 + length..] == data[offset + 6 + length..];
      }
    }
  }

  method DecodeTlv(data: array<Utf8.byte>, kinds: seq<FieldKind>) returns (r: Option<seq<Value>>)
    ensures r == Decode(data[..], kinds)
  {
    hide DecodeField, ReadU32, FieldAt, DecodeFrom;
    if |kinds| == 0 || |kinds| > 255 {
      return None;
    }
    var result: seq<Value> := [];
    var offset: nat := 0;
    ghost var all := data[..];
    assert all[0..] == all;
    CompletedParts([], [], DecodeFrom(all, kinds, 0));
    assert Decode(all, kinds) == DecodeFrom(all[0..], kinds, 0);
    for k := 0 to |kinds|
      invariant offset <= data.Length
      invariant Decode(all, kinds) == Completed(result, DecodeFrom(all[offset..], kinds, k))
    {
      var v, next := ReadField(data, offset, kinds[k], k + 1);
      ReadOn(all, offset, kinds, k);
      if v.None? {
        return None;
      }
      assert all[offset + 2..] == data[offset + 2..];
      CompletedParts(result, [v.value], DecodeFrom(all[next..], kinds, k + 1));
      result, offset := result + [v.value], next;
    }
    Finished(all, offset, kinds);
    assert result + [] == result;
    if offset != data.Length {
      return None;
    }
    r := Some(result);
  }

  lemma Finished(data: seq<Utf8.byte>, offset: nat, kinds: seq<FieldKind>)
    requires offset <= |data| && |kinds| <= 255
    ensures DecodeFrom(data[offset..], kinds, |kinds|) == if offset == |data| then Some([]) else None
  {
  }
}
