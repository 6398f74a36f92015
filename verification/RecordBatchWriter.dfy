/** The format 2 writers of write.go, as operations on a buffered writer. */
module RecordBatchWriter {
  import opened Collections
  import opened Wire
  import opened Codecs
  import opened RecordBatch
  import VarInt
  import Streams

  /** recordSize. */
  method RecordSize(m: Message, timestampDelta: int, offsetDelta: int) returns (size: nat)
    requires VarInt.InRange(timestampDelta) && VarInt.InRange(offsetDelta) && Small(m)
    ensures size == |Body(timestampDelta, offsetDelta, m)|
  {
    hide VarInt.Encode;
    var a := VarInt.Len(timestampDelta);
    var b := VarInt.Len(offsetDelta);
    var c := VarInt.Len(m.key.Len());
    var d := VarInt.Len(m.value.Len());
    var e := VarInt.Len(|m.headers|);
    size := 1 + a + b + c + m.key.Len() + d + m.value.Len() + e;
    ghost var fixed := size;
    assert fixed + |HeadersBytes(m.headers)| == |Body(timestampDelta, offsetDelta, m)|;
    for i := 0 to |m.headers|
      invariant size + |HeadersBytes(m.headers[i..])| == fixed + |HeadersBytes(m.headers)|
    {
      var h := m.headers[i];
      assert h in m.headers;
      assert m.headers[i..][0] == h && m.headers[i..][1..] == m.headers[i + 1..];
      var k := VarInt.Len(|h.key|);
      var v := VarInt.Len(h.value.Len());
      size := size + k + |h.key| + v + h.value.Len();
    }
  }

  method WriteSized(w: Streams.Writer, b: seq<byte>)
    requires |b| < 0x8000_0000
    modifies w
    ensures w.out == old(w.out) + Sized(b)
  {
    hide VarInt.Encode;
    VarInt.Write(w, |b|);
    w.Write(b);
  }

  /** writeRecord. */
  method WriteRecord(w: Streams.Writer, baseTime: int, offset: nat, m: Message)
    requires VarInt.InRange(m.time - baseTime) && VarInt.InRange(offset) && Small(m)
    requires |Body(m.time - baseTime, offset, m)| < 0x8000_0000
    modifies w
    ensures w.out == old(w.out) + RecordBytes(m.time - baseTime, offset, m)
  {
    hide VarInt.Encode, Sized, HeadersBytes;
    var delta := m.time - baseTime;
    var size := RecordSize(m, delta, offset);
    VarInt.Write(w, size);
    w.Write(Int8(0));
    VarInt.Write(w, delta);
    VarInt.Write(w, offset);
    assert w.out == old(w.out) + (VarInt.Encode(size) + Deltas(delta, offset));
    WriteSized(w, m.key.Contents());
    WriteSized(w, m.value.Contents());
    VarInt.Write(w, |m.headers|);
    WriteHeaders(w, m.headers);
    assert w.out == old(w.out) + RecordBytes(delta, offset, m);
  }

  method WriteHeaders(w: Streams.Writer, hs: seq<Header>)
    requires forall h :: h in hs ==> |h.key| < 0x8000_0000 && h.value.Len() < 0x8000_0000
    modifies w
    ensures w.out == old(w.out) + HeadersBytes(hs)
  {
    hide Sized;
    for i := 0 to |hs|
      invariant w.out + HeadersBytes(hs[i..]) == old(w.out) + HeadersBytes(hs)
    {
      var h := hs[i];
      assert hs[i..][0] == h && hs[i..][1..] == hs[i + 1..];
      assert HeadersBytes(hs[i..]) == HeaderBytes(h) + HeadersBytes(hs[i + 1..]);
      ghost var before := w.out;
      WriteSized(w, h.key);
      WriteSized(w, h.value.Contents());
      assert w.out == before + HeaderBytes(h);
      Assoc(before, HeaderBytes(h), HeadersBytes(hs[i + 1..]));
    }
  }

  ghost predicate Countable(msgs: seq<Message>) {
    && 1 <= |msgs| < 0x8000_0000
    && forall i :: 0 <= i < |msgs| ==>
         && Small(msgs[i]) && VarInt.InRange(msgs[i].time - msgs[0].time)
         && |Body(msgs[i].time - msgs[0].time, i, msgs[i])| < 0x8000_0000
  }

  /** recordBatchSize: the header and every record with its own length in front. */
  method RecordBatchSize(msgs: seq<Message>) returns (size: nat)
    requires Countable(msgs)
    ensures size == 61 + |Records(msgs[0].time, 0, msgs)|
  {
    hide Body, Small, VarInt.Encode;
    size := 8 + 4 + 4 + 1 + 4 + 2 + 4 + 8 + 8 + 8 + 2 + 4 + 4;
    assert msgs[0..] == msgs;
    for i := 0 to |msgs|
      invariant size + |Records(msgs[0].time, i, msgs[i..])| == 61 + |Records(msgs[0].time, 0, msgs)|
    {
      var m := msgs[i];
      assert msgs[i..][0] == m && msgs[i..][1..] == msgs[i + 1..];
      var sz := RecordSize(m, m.time - msgs[0].time, i);
      var l := VarInt.Len(sz);
      size := size + sz + l;
    }
  }

  /** The loop of writeProduceRequestV3 that writes every record. */
  method WriteRecords(w: Streams.Writer, msgs: seq<Message>)
    requires Countable(msgs)
    modifies w
    ensures w.out == old(w.out) + Records(msgs[0].time, 0, msgs)
  {
    hide Body, Small, RecordBytes;
    assert msgs[0..] == msgs;
    for i := 0 to |msgs|
      invariant w.out + Records(msgs[0].time, i, msgs[i..]) == old(w.out) + Records(msgs[0].time, 0, msgs)
    {
      var m := msgs[i];
      assert msgs[i..][0] == m && msgs[i..][1..] == msgs[i + 1..];
      ghost var before := w.out;
      WriteRecord(w, msgs[0].time, i, m);
      Assoc(before, RecordBytes(m.time - msgs[0].time, i, m), Records(msgs[0].time, i + 1, msgs[i + 1..]));
    }
  }

  lemma BatchLayout(b: Batch)
    requires b.msgs != []
    ensures var v := HeaderValues(b);
            BatchBytes(b) == Fields(LAYOUT[..4], v[..4]) + Int32(b.crc) + Checked(b)
  {
    hide Payload, Fields;
    var v := HeaderValues(b);
    FieldsSplit(LAYOUT, v, 4);
    FieldsSplit(LAYOUT[4..], v[4..], 1);
    assert LAYOUT[4..][..1] == [4] && v[4..][..1] == [b.crc];
    assert LAYOUT[4..][1..] == LAYOUT[5..] && v[4..][1..] == v[5..];
    OneField(4, b.crc);
    Assoc(Fields(LAYOUT[..4], v[..4]), Int32(b.crc), Fields(LAYOUT[5..], v[5..]));
    Assoc(Fields(LAYOUT[..4], v[..4]) + Int32(b.crc), Fields(LAYOUT[5..], v[5..]), Payload(b));
  }

  lemma SamePayload(b: Batch, c: Batch)
    requires b.msgs != [] && b.msgs == c.msgs && b.codec == c.codec
    ensures Payload(b) == Payload(c)
  {
  }

  lemma OneField(w: nat, v: int)
    ensures Fields([w], [v]) == BigEndian(w, v)
  {
    assert Fields([w], [v]) == BigEndian(w, v) + Fields([w][1..], [v][1..]);
  }

  lemma FirstField(b: Batch)
    requires b.msgs != []
    ensures BatchBytes(b) == Int64(b.base) + (Fields(LAYOUT[1..], HeaderValues(b)[1..]) + Payload(b))
  {
    hide Payload, Fields, BigEndian;
    var v := HeaderValues(b);
    FieldsSplit(LAYOUT, v, 1);
    assert LAYOUT[..1] == [8] && v[..1] == [b.base];
    OneField(8, b.base);
    Assoc(Int64(b.base), Fields(LAYOUT[1..], v[1..]), Payload(b));
  }

  /** The broker replaces the base offset the producer left at zero; nothing else depends on it. */
  lemma Rebase(b: Batch, base: int)
    requires b.msgs != []
    ensures BatchBytes(b.(base := base)) == Int64(base) + BatchBytes(b)[8..]
  {
    hide Payload, Fields, BigEndian, BatchBytes;
    var c := b.(base := base);
    SamePayload(b, c);
    FirstField(b);
    FirstField(c);
    assert HeaderValues(b)[1..] == HeaderValues(c)[1..];
  }

  /** writeRecordBatch: `size` is the size of the whole batch, `payload` what its callback writes. */
  method WriteRecordBatch(w: Streams.Writer, codec: Option<Codec>, size: nat, payload: seq<byte>, msgs: seq<Message>,
                          checksum: seq<byte> -> int)
    requires msgs != [] && payload == Payload(Batch(0, codec, 0, msgs))
    requires size == 61 + |payload|
    modifies w
    ensures var b := Batch(0, codec, 0, msgs);
            w.out == old(w.out) + BatchBytes(b.(crc := Wrap32(checksum(Checked(b)))))
  {
    hide Payload, Fields;
    var attributes := if codec.None? then 0 else codec.value.code;
    Streams.WriteFields(w, [8, 4, 4, 1], [0, size - 12, -1, 2]);
    var crcWriter := new Streams.Writer();
    Streams.WriteFields(crcWriter, [2, 4, 8, 8, 8, 2, 4, 4],
      [attributes, |msgs| - 1, Millis(msgs[0].time), Millis(msgs[|msgs| - 1].time), -1, -1, -1, |msgs|]);
    crcWriter.Write(payload);
    ghost var b := Batch(0, codec, 0, msgs);
    assert crcWriter.out == Checked(b) by {
      assert LAYOUT[5..] == [2, 4, 8, 8, 8, 2, 4, 4];
      assert HeaderValues(b)[5..]
          == [attributes, |msgs| - 1, Millis(msgs[0].time), Millis(msgs[|msgs| - 1].time), -1, -1, -1, |msgs|];
    }
    var crc := Wrap32(checksum(crcWriter.out));
    w.Write(Int32(crc));
    w.Write(crcWriter.out);
    ghost var c := b.(crc := crc);
    SamePayload(b, c);
    WrittenBatch(c, old(w.out), w.out, size, crcWriter.out);
  }

  lemma WrittenBatch(c: Batch, before: seq<byte>, after: seq<byte>, size: nat, checked: seq<byte>)
    requires c.msgs != [] && c.base == 0 && size == 61 + |Payload(c)|
    requires checked == Checked(c.(crc := 0))
    requires after == before + Fields([8, 4, 4, 1], [0, size - 12, -1, 2]) + Int32(c.crc) + checked
    ensures after == before + BatchBytes(c)
  {
    hide Payload, Fields, Int32;
    SamePayload(c, c.(crc := 0));
    assert HeaderValues(c)[5..] == HeaderValues(c.(crc := 0))[5..];
    assert LAYOUT[..4] == [8, 4, 4, 1];
    assert HeaderValues(c)[..4] == [0, size - 12, -1, 2];
    BatchLayout(c);
    var x := Fields([8, 4, 4, 1], [0, size - 12, -1, 2]);
    Assoc(before, x, Int32(c.crc));
    Assoc(before, x + Int32(c.crc), checked);
  }
}
