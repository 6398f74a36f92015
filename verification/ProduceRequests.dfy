/**
 Produce requests (write.go): the message set of format 1 with its running
 checksum (crc32.go), plain and compressed, and the record batch of format 2.
 */
module ProduceRequests {
  import opened Collections
  import opened Wire
  import opened Codecs
  import opened Requests
  import MessageSet
  import RecordBatch
  import RecordBatchProofs
  import RecordBatchWriter
  import Streams

  /** crc32.Update by one byte; which polynomial does not matter. */
  type Step = (int, byte) -> int

  function Fold(step: Step, sum: int, b: seq<byte>): int
    decreases |b|
  {
    if b == [] then sum else Fold(step, step(sum, b[0]), b[1..])
  }

  lemma {:induction false} FoldAppend(step: Step, sum: int, a: seq<byte>, b: seq<byte>)
    ensures Fold(step, sum, a + b) == Fold(step, Fold(step, sum, a), b)
    decreases |a|
  {
    if a == [] {
      assert a + b == b;
    } else {
      assert (a + b)[0] == a[0] && (a + b)[1..] == a[1..] + b;
      FoldAppend(step, step(sum, a[0]), a[1..], b);
    }
  }

  /** crc32Buffer: the running sum and the scratch buffer of the last integer. */
  class Crc32Buffer {
    const step: Step
    var sum: int
    var buf: seq<byte>

    constructor (step: Step)
      ensures this.step == step && sum == 0
    {
      this.step, sum, buf := step, 0, [];
    }

    /** writeInt8, writeInt32, writeInt64. */
    method WriteInt(width: nat, v: int)
      modifies this
      ensures sum == Fold(step, old(sum), BigEndian(width, v))
    {
      buf := [];
      buf := buf + BigEndian(width, v);
      assert buf == BigEndian(width, v);
      sum := Fold(step, sum, buf);
    }

    method WriteBytes(b: Slice)
      modifies this
      ensures sum == Fold(step, old(sum), Blob(b))
    {
      hide BigEndian, Fold;
      var n := if b.Nil? then -1 else |b.b|;
      WriteInt(4, n);
      sum := Fold(step, sum, b.Contents());
      FoldAppend(step, old(sum), Int32(n), b.Contents());
    }
  }

  /** What follows the checksum of a message. */
  function AfterCrc(magic: int, attributes: int, timestamp: int, key: Slice, value: Slice): seq<byte> {
    Int8(magic) + Int8(attributes) + (if magic != 0 then Int64(timestamp) else []) + Blob(key) + Blob(value)
  }

  /** crc32OfMessage. */
  method Crc32OfMessage(step: Step, magic: int, attributes: int, timestamp: int, key: Slice, value: Slice)
    returns (sum: int)
    ensures sum == Fold(step, 0, AfterCrc(magic, attributes, timestamp, key, value))
  {
    hide BigEndian, Fold, Blob;
    var b := new Crc32Buffer(step);
    b.WriteInt(1, magic);
    b.WriteInt(1, attributes);
    ghost var done := Int8(magic) + Int8(attributes);
    FoldAppend(step, 0, Int8(magic), Int8(attributes));
    if magic != 0 {
      b.WriteInt(8, timestamp);
      FoldAppend(step, 0, done, Int64(timestamp));
      done := done + Int64(timestamp);
    } else {
      assert done + [] == done;
    }
    b.WriteBytes(key);
    FoldAppend(step, 0, done, Blob(key));
    b.WriteBytes(value);
    FoldAppend(step, 0, done + Blob(key), Blob(value));
    return b.sum;
  }

  /** The checksum covers exactly what the serialised message holds after it. */
  lemma AfterCrcIs(m: MessageSet.Message, attributes: int)
    ensures |MessageSet.Encoded(m, attributes)| == 12 + MessageSet.Size(m.magic, m.key, m.value)
    ensures MessageSet.Encoded(m, attributes)[16..] == AfterCrc(m.magic, attributes, m.timestamp, m.key, m.value)
  {
    hide BigEndian;
    var head := Int64(m.offset) + (Int32(MessageSet.Size(m.magic, m.key, m.value)) + Int32(m.crc));
    assert MessageSet.Encoded(m, attributes) == head + AfterCrc(m.magic, attributes, m.timestamp, m.key, m.value);
  }

  /** A message to be produced; `timestamp` is already in milliseconds. */
  datatype Message = Message(offset: int, timestamp: int, key: Slice, value: Slice)

  /** The message of format 1 with the checksum of its own serialised bytes. */
  function Sealed(step: Step, m: Message, attributes: int): MessageSet.Message {
    MessageSet.Message(m.offset, Wrap32(Fold(step, 0, AfterCrc(1, attributes, m.timestamp, m.key, m.value))), 1,
                       m.timestamp, m.key, m.value)
  }

  /** The stored checksum is that of the bytes after it, in what is put on the wire. */
  lemma SealedChecks(step: Step, m: Message, attributes: int)
    ensures var s := Sealed(step, m, attributes);
            s.crc == Wrap32(Fold(step, 0, MessageSet.Encoded(s, attributes)[16..]))
  {
    AfterCrcIs(Sealed(step, m, attributes), attributes);
  }

  /** writeMessage. */
  method WriteMessage(w: Streams.Writer, step: Step, m: Message, attributes: int)
    modifies w
    ensures w.out == old(w.out) + MessageSet.Encoded(Sealed(step, m, attributes), attributes)
  {
    hide BigEndian, Fields, Blob, Fold;
    var crc := Crc32OfMessage(step, 1, attributes, m.timestamp, m.key, m.value);
    var size := MessageSize(m);
    Streams.WriteFields(w, [8, 4, 4, 1, 1, 8], [m.offset, size, Wrap32(crc), 1, attributes, m.timestamp]);
    w.Write(Blob(m.key));
    w.Write(Blob(m.value));
    PrefixFields(m.offset, size, Wrap32(crc), attributes, m.timestamp);
    ghost var p := MessageSet.Prefix(m.offset, size, Wrap32(crc), 1, attributes, m.timestamp);
    Assoc(old(w.out) + p, Blob(m.key), Blob(m.value));
    Assoc(old(w.out), p, Blob(m.key) + Blob(m.value));
  }

  /** msgSize. */
  function MessageSize(m: Message): (size: nat)
    ensures size == MessageSet.Size(1, m.key, m.value)
  {
    4 + 1 + 1 + 8 + (4 + m.key.Len()) + (4 + m.value.Len())
  }

  lemma PrefixFields(offset: int, size: int, crc: int, attributes: int, timestamp: int)
    ensures Fields([8, 4, 4, 1, 1, 8], [offset, size, crc, 1, attributes, timestamp])
         == MessageSet.Prefix(offset, size, crc, 1, attributes, timestamp)
  {
    hide BigEndian;
    var ws: seq<nat>, vs := [8, 4, 4, 1, 1, 8], [offset, size, crc, 1, attributes, timestamp];
    FieldsSplit(ws, vs, 3);
    assert ws[..3] == [8, 4, 4] && ws[3..] == [1, 1, 8];
    assert vs[..3] == [offset, size, crc] && vs[3..] == [1, attributes, timestamp];
    ThreeFields([8, 4, 4], [offset, size, crc]);
    ThreeFields([1, 1, 8], [1, attributes, timestamp]);
    Assoc(Int64(offset) + (Int32(size) + Int32(crc)), Int8(1) + Int8(attributes), Int64(timestamp));
  }

  lemma ThreeFields(ws: seq<nat>, vs: seq<int>)
    requires |ws| == |vs| == 3
    ensures Fields(ws, vs) == BigEndian(ws[0], vs[0]) + BigEndian(ws[1], vs[1]) + BigEndian(ws[2], vs[2])
  {
    hide BigEndian;
    var a, b, c := BigEndian(ws[0], vs[0]), BigEndian(ws[1], vs[1]), BigEndian(ws[2], vs[2]);
    assert Fields(ws[1..][1..][1..], vs[1..][1..][1..]) == [];
    assert Fields(ws[1..][1..], vs[1..][1..]) == c + [];
    Assoc(a, b, c);
  }

  function SetBytes(step: Step, msgs: seq<Message>, attributes: int): seq<byte>
    decreases |msgs|
  {
    if msgs == [] then []
    else MessageSet.Encoded(Sealed(step, msgs[0], attributes), attributes) + SetBytes(step, msgs[1..], attributes)
  }

  /** Without compression this is the message set that messageSetReaderV1 reads back. */
  lemma {:induction false} SetBytesPlain(step: Step, msgs: seq<Message>)
    ensures SetBytes(step, msgs, 0)
              == MessageSet.SetBytes(seq(|msgs|, i requires 0 <= i < |msgs| => Sealed(step, msgs[i], 0)))
    decreases |msgs|
  {
    hide Sealed, MessageSet.Encoded;
    var all := seq(|msgs|, i requires 0 <= i < |msgs| => Sealed(step, msgs[i], 0));
    if msgs != [] {
      SetBytesPlain(step, msgs[1..]);
      assert all[1..] == seq(|msgs[1..]|, i requires 0 <= i < |msgs[1..]| => Sealed(step, msgs[1..][i], 0));
    }
  }

  /** messageSetSize. */
  method MessageSetSize(step: Step, msgs: seq<Message>, attributes: int) returns (size: nat)
    ensures size == |SetBytes(step, msgs, attributes)|
  {
    hide BigEndian, Sealed, MessageSet.Encoded, MessageSet.Size;
    size := 0;
    assert msgs[0..] == msgs;
    for i := 0 to |msgs|
      invariant size + |SetBytes(step, msgs[i..], attributes)| == |SetBytes(step, msgs, attributes)|
    {
      var m := msgs[i];
      assert msgs[i..][0] == m && msgs[i..][1..] == msgs[i + 1..];
      SealedSize(step, m, attributes);
      size := size + (8 + 4 + 4 + 1 + 1 + 8 + (4 + m.key.Len()) + (4 + m.value.Len()));
    }
  }

  lemma SealedSize(step: Step, m: Message, attributes: int)
    ensures |MessageSet.Encoded(Sealed(step, m, attributes), attributes)| == 12 + MessageSize(m)
  {
    hide Fold;
    AfterCrcIs(Sealed(step, m, attributes), attributes);
  }

  method WriteMessages(w: Streams.Writer, step: Step, msgs: seq<Message>, attributes: int)
    modifies w
    ensures w.out == old(w.out) + SetBytes(step, msgs, attributes)
  {
    hide Sealed, MessageSet.Encoded;
    for i := 0 to |msgs|
      invariant w.out + SetBytes(step, msgs[i..], attributes) == old(w.out) + SetBytes(step, msgs, attributes)
    {
      ghost var before := w.out;
      assert msgs[i..][0] == msgs[i] && msgs[i..][1..] == msgs[i + 1..];
      WriteMessage(w, step, msgs[i], attributes);
      Assoc(before, MessageSet.Encoded(Sealed(step, msgs[i], attributes), attributes),
            SetBytes(step, msgs[i + 1..], attributes));
    }
  }

  /** The messages of a compressed set are numbered from zero. */
  function Numbered(msgs: seq<Message>, first: nat): seq<Message>
    decreases |msgs|
  {
    if msgs == [] then [] else [msgs[0].(offset := first)] + Numbered(msgs[1..], first + 1)
  }

  /** compress: one message without key and time, whose value is the compressed set. */
  method Compress(codec: Codec, step: Step, msgs: seq<Message>) returns (wrapper: Message)
    ensures wrapper == Message(0, 0, Nil, Bytes(codec.Encode(SetBytes(step, Numbered(msgs, 0), 0))))
  {
    hide Sealed, MessageSet.Encoded;
    var w := new Streams.Writer();
    for i := 0 to |msgs|
      invariant w.out + SetBytes(step, Numbered(msgs[i..], i), 0) == SetBytes(step, Numbered(msgs, 0), 0)
    {
      ghost var before := w.out;
      assert msgs[i..][0] == msgs[i] && msgs[i..][1..] == msgs[i + 1..];
      var m := msgs[i].(offset := i);
      ghost var more := Numbered(msgs[i + 1..], i + 1);
      assert ([m] + more)[1..] == more;
      WriteMessage(w, step, m, 0);
      Assoc(before, MessageSet.Encoded(Sealed(step, m, 0), 0), SetBytes(step, more, 0));
    }
    assert w.out + [] == w.out;
    wrapper := Message(0, 0, Nil, Bytes(codec.Encode(w.out)));
  }

  /** produceRequestV2 and V3 for one partition: its number, the size of the messages, the messages. */
  function ProduceRow(partition: int, messages: seq<byte>): seq<Field> {
    Ints([4, 4], [partition, |messages|]) + [Raw(messages)]
  }

  lemma ProduceRowBytes(partition: int, messages: seq<byte>)
    ensures RowBytes(ProduceRow(partition, messages)) == Fields([4, 4], [partition, |messages|]) + messages
    ensures |RowBytes(ProduceRow(partition, messages))| == 8 + |messages|
  {
    hide BigEndian, Fields, RowBytes, Sum;
    RowAppend(Ints([4, 4], [partition, |messages|]), [Raw(messages)]);
    IntsBytes([4, 4], [partition, |messages|]);
    OneBytes(Raw(messages));
    FieldsLength([4, 4], [partition, |messages|]);
    Sums();
  }

  lemma FlatThen(widths: seq<nat>, values: seq<int>, topic: seq<byte>, p: seq<byte>, messages: seq<byte>)
    requires |widths| == |values|
    ensures Flat(widths, values, topic, p) + messages == Flat(widths, values, topic, p + messages)
  {
    hide BigEndian, Fields;
    var a := Int32(1) + p;
    Assoc(Int32(1), p, messages);
    Assoc(String(topic), a, messages);
    Assoc(Int32(1), String(topic) + a, messages);
    Assoc(Fields(widths, values), Int32(1) + (String(topic) + a), messages);
  }

  lemma IsProduce(before: seq<byte>, version: int, id: int, client: seq<byte>, size: nat, widths: seq<nat>,
                  values: seq<int>, topic: seq<byte>, partition: int, messages: seq<byte>)
    requires |widths| == |values| && size == Sum(widths) + 10 + |topic| + 8 + |messages|
    ensures before + HeaderBytes(0, version, id, client, size)
            + Flat(widths, values, topic, Fields([4, 4], [partition, |messages|])) + messages
         == before + RequestBytes(0, version, id, client,
                                  RowBytes(ForPartition(widths, values, topic, ProduceRow(partition, messages))))
  {
    hide BigEndian, Fields, RowBytes, Sum, Flat, HeaderBytes, RequestBytes;
    ProduceRowBytes(partition, messages);
    var p := Fields([4, 4], [partition, |messages|]);
    FlatThen(widths, values, topic, p, messages);
    Assoc(before + HeaderBytes(0, version, id, client, size), Flat(widths, values, topic, p), messages);
    IsRequest(before, 0, version, id, client, size, widths, values, topic, ProduceRow(partition, messages));
  }

  /** The messages that writeProduceRequestV2 writes, and the attributes it gives them. */
  function ToWrite(codec: Option<Codec>, step: Step, msgs: seq<Message>): seq<byte> {
    match codec
    case None => SetBytes(step, msgs, 0)
    case Some(c) =>
      SetBytes(step, [Message(0, 0, Nil, Bytes(c.Encode(SetBytes(step, Numbered(msgs, 0), 0))))], c.code)
  }

  /** writeProduceRequestV2 emits what writeRequest emits for the struct. */
  method WriteProduceRequestV2(w: Streams.Writer, codec: Option<Codec>, step: Step, id: int, client: seq<byte>,
                               topic: seq<byte>, partition: int, timeout: int, acks: int, messages: seq<Message>)
    modifies w
    ensures w.out == old(w.out) + RequestBytes(0, 2, id, client,
                                    RowBytes(ForPartition([2, 4], [acks, Milliseconds(timeout)], topic,
                                                          ProduceRow(partition, ToWrite(codec, step, messages)))))
  {
    hide BigEndian, Fields, RowBytes, Sum, Flat, HeaderBytes, RequestBytes, SetBytes, Milliseconds, ForPartition;
    var msgs, attributes := messages, 0;
    if codec.Some? {
      var wrapper := Compress(codec.value, step, messages);
      msgs, attributes := [wrapper], codec.value.code;
    }
    var size := MessageSetSize(step, msgs, attributes);
    var ms := Milliseconds(timeout);
    WriteHeader(w, 0, 2, id, client, 2 + 4 + 4 + (2 + |topic|) + 4 + 4 + 4 + size);
    WritePartition(w, [2, 4], [acks, ms], topic, [4, 4], [partition, size]);
    WriteMessages(w, step, msgs, attributes);
    Sums();
    IsProduce(old(w.out), 2, id, client, 2 + 4 + 4 + (2 + |topic|) + 4 + 4 + 4 + size, [2, 4], [acks, ms], topic,
              partition, SetBytes(step, msgs, attributes));
  }

  /** The record batch that a format 3 request carries, with its checksum. */
  ghost function BatchToWrite(codec: Option<Codec>, checksum: seq<byte> -> int,
                              msgs: seq<RecordBatch.Message>): RecordBatch.Batch
    requires msgs != []
  {
    var b := RecordBatch.Batch(0, codec, 0, msgs);
    b.(crc := Wrap32(checksum(RecordBatch.Checked(b))))
  }

  lemma BatchLength(b: RecordBatch.Batch)
    requires b.msgs != []
    ensures |RecordBatch.BatchBytes(b)| == 61 + |RecordBatch.Payload(b.(crc := 0))|
  {
    hide BigEndian, RecordBatch.Payload, Fields, Sum;
    FieldsLength(RecordBatch.LAYOUT, RecordBatch.HeaderValues(b));
    RecordBatchProofs.LayoutSum();
    RecordBatchWriter.SamePayload(b, b.(crc := 0));
  }

  lemma NotEmpty(msgs: seq<RecordBatch.Message>)
    requires RecordBatchWriter.Countable(msgs)
    ensures msgs != []
  {
  }

  /** writeProduceRequestV3: the size counts the batch, compressed or not, and the bytes are the batch. */
  method WriteProduceRequestV3(w: Streams.Writer, codec: Option<Codec>, checksum: seq<byte> -> int, id: int,
                               client: seq<byte>, topic: seq<byte>, partition: int, timeout: int, acks: int,
                               msgs: seq<RecordBatch.Message>)
    requires RecordBatchWriter.Countable(msgs)
    modifies w
    ensures w.out == old(w.out) + RequestBytes(0, 3, id, client,
                                    RowBytes(ForPartition([2, 2, 4], [-1, acks, Milliseconds(timeout)], topic,
                                      ProduceRow(partition,
                                                 RecordBatch.BatchBytes(BatchToWrite(codec, checksum, msgs))))))
  {
    hide BigEndian, Fields, RowBytes, Sum, Flat, HeaderBytes, RequestBytes, Milliseconds, ForPartition;
    hide RecordBatch.Records, RecordBatch.BatchBytes, RecordBatch.Checked, RecordBatchWriter.Countable;
    NotEmpty(msgs);
    var records := new Streams.Writer();
    RecordBatchWriter.WriteRecords(records, msgs);
    assert records.out == RecordBatch.Records(msgs[0].time, 0, msgs);
    var payload, size := records.out, 0;
    if codec.Some? {
      payload := codec.value.Encode(records.out);
      size := 61 + |payload|;
    } else {
      size := RecordBatchWriter.RecordBatchSize(msgs);
    }
    var ms := Milliseconds(timeout);
    var total := 2 + 2 + 4 + 4 + (2 + |topic|) + 4 + 4 + 4 + size;
    WriteHeader(w, 0, 3, id, client, total);
    WritePartition(w, [2, 2, 4], [-1, acks, ms], topic, [4, 4], [partition, size]);
    RecordBatchWriter.WriteRecordBatch(w, codec, size, payload, msgs, checksum);
    ghost var b := BatchToWrite(codec, checksum, msgs);
    BatchLength(b);
    SumThree(2, 2, 4);
    IsProduce(old(w.out), 3, id, client, total, [2, 2, 4], [-1, acks, ms], topic, partition, RecordBatch.BatchBytes(b));
  }
}
