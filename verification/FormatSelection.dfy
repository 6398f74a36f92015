/**
 newMessageSetReader (message.go): which of the two readers a fetch response
 gets, decided by one byte that both formats keep in the same place.
 */
module FormatSelection {
  import opened Wire
  import opened Codecs
  import MessageSet
  import MessageSetReader
  import RecordBatch
  import RecordBatchReader
  import Streams

  datatype Format = Old | New

  /** Offset, size, checksum or leader epoch, then the magic byte. */
  const MAGIC: nat := 16

  function Select(s: Src, capacity: nat): (r: R<Format>)
    ensures r.rest == s
  {
    if MAGIC + 1 > s.remain then Fail(ShortRead, s)
    else if MAGIC + 1 > capacity then Fail(BufferFull, s)
    else if MAGIC + 1 > |s.data| then Fail(EndOfStream, s)
    else
      var version := Signed([s.data[MAGIC]]);
      if version == 0 || version == 1 then Ok(Old, s)
      else if version == 2 then Ok(New, s)
      else Fail(BadVersion, s)
  }

  /** The reader is only looked into; the one chosen starts at its very position. */
  method NewMessageSetReader(codecs: Registry, r: Streams.Reader, remain: nat)
    returns (v1: MessageSetReader.MessageSetReaderV1?, v2: RecordBatchReader.MessageSetReaderV2?, err: Err)
    ensures Streams.Finishes(Select(r.At(remain), r.capacity), r.At(remain), err)
    ensures v1 != null <==> Select(r.At(remain), r.capacity) == Ok(Old, r.At(remain))
    ensures v2 != null <==> Select(r.At(remain), r.capacity) == Ok(New, r.At(remain))
    ensures v1 != null ==>
              && v1.Valid() && v1.codecs == codecs && v1.conn == r
              && v1.stack == [MessageSetReader.Entry(r, remain, 0)]
    ensures v2 != null ==>
              && v2.Valid() && v2.codecs == codecs && v2.stack == [RecordBatchReader.Entry(r, remain)]
              && v2.count == 0
  {
    hide Signed;
    v1, v2 := null, null;
    var headerLength := 8 + 4 + 4 + 1;
    if headerLength > remain {
      return v1, v2, ShortRead;
    }
    var b;
    b, err := r.Peek(headerLength);
    if err != NoError {
      return;
    }
    assert b[headerLength - 1] == r.data[MAGIC];
    var version := Signed([b[headerLength - 1]]);
    if version == 0 || version == 1 {
      v1 := new MessageSetReader.MessageSetReaderV1(codecs, r, remain);
    } else if version == 2 {
      v2 := new RecordBatchReader.MessageSetReaderV2(codecs, r, remain);
    } else {
      err := BadVersion;
    }
  }

  /**
   On arbitrary bytes a reader is chosen exactly when the response, the buffer
   and the stream hold seventeen bytes and the last of these is 0, 1 or 2; and it is
   the new one exactly for 2.
   */
  lemma SelectsIff(s: Src, capacity: nat)
    ensures Select(s, capacity).Ok? <==>
              s.remain >= 17 && capacity >= 17 && |s.data| >= 17 && s.data[16] as int in {0, 1, 2}
    ensures Select(s, capacity).Ok? ==>
              (Select(s, capacity).value == New <==> s.data[16] as int == 2)
  {
    if |s.data| >= 17 {
      ByteSigned(s.data[16]);
    }
  }

  lemma ByteSigned(b: byte)
    ensures Signed([b]) == if b as int < 128 then b as int else b as int - 256
  {
    if b as int < 128 {
      OneByte(b as int);
      assert [b] == Int8(b as int);
    }
  }

  lemma OneByte(v: int)
    requires 0 <= v < 128
    ensures Signed([Int8(v)[0]]) == v
  {
    Widths();
    SignedBigEndian(1, v);
    assert [Int8(v)[0]] == Int8(v);
  }

  lemma OldMagic(m: MessageSet.Message, attributes: int)
    ensures |MessageSet.Encoded(m, attributes)| > MAGIC
    ensures MessageSet.Encoded(m, attributes)[MAGIC] == Int8(m.magic)[0]
  {
    hide BigEndian;
    var a := Int64(m.offset) + (Int32(MessageSet.Size(m.magic, m.key, m.value)) + Int32(m.crc));
    assert |a| == MAGIC;
    assert MessageSet.Encoded(m, attributes)[MAGIC] == (a + (Int8(m.magic) + Int8(attributes)))[MAGIC];
  }

  /** What the old format's writers emit is given to the old format's reader, wrapped or not, even if it is cut off. */
  lemma SelectsOld(items: seq<MessageSet.Item>, n: nat, rest: seq<byte>, capacity: nat)
    requires items != [] && capacity > MAGIC && MAGIC < n <= |MessageSet.ItemsBytes(items)|
    requires MessageSet.AsMessage(items[0]).magic in {0, 1}
    ensures var s := Src(MessageSet.ItemsBytes(items)[..n] + rest, n);
            Select(s, capacity).Ok? && Select(s, capacity).value == Old
  {
    hide BigEndian, Signed, MessageSet.Encoded, MessageSet.AsMessage;
    var first := MessageSet.AsMessage(items[0]);
    OldMagic(first, MessageSet.Code(items[0]));
    OneByte(first.magic);
  }

  lemma NewMagic(b: RecordBatch.Batch)
    requires b.msgs != []
    ensures |RecordBatch.BatchBytes(b)| > MAGIC && RecordBatch.BatchBytes(b)[MAGIC] == Int8(2)[0]
  {
    hide BigEndian, RecordBatch.Payload, Sum;
    var ws, vs := RecordBatch.LAYOUT, RecordBatch.HeaderValues(b);
    FieldsSplit(ws, vs, 3);
    assert ws[..3] == [8, 4, 4];
    FieldsLength(ws[..3], vs[..3]);
    SumThree(8, 4, 4);
    assert Fields(ws[3..], vs[3..]) == Int8(2) + Fields(ws[3..][1..], vs[3..][1..]);
  }

  /** What the new format's writer emits is given to the new format's reader. */
  lemma SelectsNew(batches: seq<RecordBatch.Batch>, n: nat, rest: seq<byte>, capacity: nat)
    requires batches != [] && RecordBatch.NonEmpty(batches) && capacity > MAGIC
    requires MAGIC < n <= |RecordBatch.BatchesBytes(batches)|
    ensures var s := Src(RecordBatch.BatchesBytes(batches)[..n] + rest, n);
            Select(s, capacity).Ok? && Select(s, capacity).value == New
  {
    hide BigEndian, Signed, RecordBatch.BatchBytes;
    NewMagic(batches[0]);
    OneByte(2);
  }
}
