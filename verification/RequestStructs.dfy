/**
 The request structs with their own hand-written size() and their writeTo
 (fetch.go, listoffset.go, produce.go, message.go): a head of integers, topics,
 and partitions of one kind.
 */
module RequestStructs {
  import opened Requests
  import opened Wire
  import MessageSet
  import ProduceRequests
  import Streams

  datatype Partition =
    | Fetch(partition: int, offset: int, maxBytes: int)
    | ListOffset(partition: int, time: int)
    | Produce(partition: int, messageSetSize: int, messages: seq<MessageSet.Message>)

  datatype Topic = Topic(name: seq<byte>, partitions: seq<Partition>)

  datatype Head =
    | FetchHead(replica: int, maxWait: int, minBytes: int)
    | ListOffsetHead(replica: int)
    | ProduceHead(acks: int, timeout: int)

  datatype Struct = Struct(head: Head, topics: seq<Topic>)

  // ---------------------------------------------------------------------
  // What writeTo writes
  // ---------------------------------------------------------------------

  function PartitionFields(p: Partition): seq<Field> {
    match p
    case Fetch(n, offset, max) => Ints([4, 8, 4], [n, offset, max])
    case ListOffset(n, time) => Ints([4, 8], [n, time])
    case Produce(n, size, msgs) => Ints([4, 4], [n, size]) + [Raw(MessageSet.SetBytes(msgs))]
  }

  function PartitionRows(ps: seq<Partition>): (rows: seq<Row>)
    ensures |rows| == |ps|
  {
    seq(|ps|, i requires 0 <= i < |ps| => Row(PartitionFields(ps[i])))
  }

  function TopicFields(t: Topic): seq<Field> {
    [Str(t.name), Array(PartitionRows(t.partitions))]
  }

  function TopicRows(ts: seq<Topic>): (rows: seq<Row>)
    ensures |rows| == |ts|
  {
    seq(|ts|, i requires 0 <= i < |ts| => Row(TopicFields(ts[i])))
  }

  function HeadFields(h: Head): seq<Field> {
    match h
    case FetchHead(replica, maxWait, minBytes) => Ints([4, 4, 4], [replica, maxWait, minBytes])
    case ListOffsetHead(replica) => Ints([4], [replica])
    case ProduceHead(acks, timeout) => Ints([2, 4], [acks, timeout])
  }

  function StructFields(s: Struct): seq<Field> {
    HeadFields(s.head) + [Array(TopicRows(s.topics))]
  }

  // ---------------------------------------------------------------------
  // size()
  // ---------------------------------------------------------------------

  /** message.size and messageSetItem.size. */
  function ItemSize(m: MessageSet.Message): nat {
    8 + 4 + (4 + 1 + 1 + (4 + m.key.Len()) + (4 + m.value.Len()) + if m.magic != 0 then 8 else 0)
  }

  /** messageSet.size. */
  method SetSize(msgs: seq<MessageSet.Message>) returns (size: nat)
    ensures size == |MessageSet.SetBytes(msgs)|
  {
    hide MessageSet.Encoded;
    size := 0;
    for i := 0 to |msgs|
      invariant size + |MessageSet.SetBytes(msgs[i..])| == |MessageSet.SetBytes(msgs)|
    {
      assert msgs[i..][0] == msgs[i] && msgs[i..][1..] == msgs[i + 1..];
      ItemIs(msgs[i]);
      size := size + ItemSize(msgs[i]);
    }
  }

  lemma ItemIs(m: MessageSet.Message)
    ensures |MessageSet.Encoded(m, 0)| == ItemSize(m)
  {
    ProduceRequests.AfterCrcIs(m, 0);
  }

  /** size() of the three partition structs. */
  method PartitionSize(p: Partition) returns (size: nat)
    ensures size == |RowBytes(PartitionFields(p))|
  {
    hide RowBytes;
    match p {
      case Fetch(_, _, _) =>
        size := 4 + 8 + 4;
      case ListOffset(_, _) =>
        size := 4 + 8;
      case Produce(_, _, msgs) =>
        var n := SetSize(msgs);
        size := 4 + 4 + n;
    }
    PartitionLength(p);
  }

  lemma IntsLength(widths: seq<nat>, values: seq<int>)
    requires |widths| == |values|
    ensures |RowBytes(Ints(widths, values))| == Sum(widths)
  {
    hide RowBytes, Fields;
    IntsBytes(widths, values);
    FieldsLength(widths, values);
  }

  lemma PartitionLength(p: Partition)
    ensures |RowBytes(PartitionFields(p))| == match p
                                              case Fetch(_, _, _) => 16
                                              case ListOffset(_, _) => 12
                                              case Produce(_, _, msgs) => 8 + |MessageSet.SetBytes(msgs)|
  {
    hide RowBytes, Sum, MessageSet.SetBytes;
    Sums();
    SumThree(4, 8, 4);
    match p {
      case Fetch(n, offset, max) => IntsLength([4, 8, 4], [n, offset, max]);
      case ListOffset(n, time) => IntsLength([4, 8], [n, time]);
      case Produce(n, size, msgs) =>
        RowAppend(Ints([4, 4], [n, size]), [Raw(MessageSet.SetBytes(msgs))]);
        IntsLength([4, 4], [n, size]);
        OneBytes(Raw(MessageSet.SetBytes(msgs)));
    }
  }

  lemma RowsNext(rows: seq<Row>, i: nat)
    requires i < |rows|
    ensures |RowsBytes(rows[i..])| == |RowBytes(rows[i].fields)| + |RowsBytes(rows[i + 1..])|
  {
    hide RowBytes;
    assert rows[i..][0] == rows[i] && rows[i..][1..] == rows[i + 1..];
  }

  /** size() of the topic structs: sizeofString and sizeofArray. */
  method TopicSize(t: Topic) returns (size: nat)
    ensures size == |RowBytes(TopicFields(t))|
  {
    hide RowBytes, RowsBytes, PartitionFields;
    var rows := PartitionRows(t.partitions);
    size := 2 + |t.name| + 4;
    assert rows[0..] == rows;
    for i := 0 to |t.partitions|
      invariant size + |RowsBytes(rows[i..])| == 2 + |t.name| + 4 + |RowsBytes(rows)|
    {
      RowsNext(rows, i);
      var n := PartitionSize(t.partitions[i]);
      size := size + n;
    }
    NoRows(rows[|rows|..]);
    TopicLength(t);
  }

  lemma NoRows(rows: seq<Row>)
    requires rows == []
    ensures RowsBytes(rows) == []
  {
  }

  lemma TopicLength(t: Topic)
    ensures |RowBytes(TopicFields(t))| == 2 + |t.name| + 4 + |RowsBytes(PartitionRows(t.partitions))|
  {
    hide RowBytes, RowsBytes, PartitionRows, BigEndian;
    var list := Array(PartitionRows(t.partitions));
    assert TopicFields(t) == [Str(t.name)] + [list];
    RowAppend([Str(t.name)], [list]);
    OneBytes(Str(t.name));
    OneBytes(list);
    StrBytes(t.name);
  }

  /** size() of the request structs. */
  method StructSize(s: Struct) returns (size: nat)
    ensures size == |RowBytes(StructFields(s))|
  {
    hide RowBytes, RowsBytes, TopicFields, HeadFields;
    size := match s.head
      case FetchHead(_, _, _) => 4 + 4 + 4
      case ListOffsetHead(_) => 4
      case ProduceHead(_, _) => 2 + 4;
    HeadLength(s.head);
    var rows := TopicRows(s.topics);
    size := size + 4;
    ghost var head := size;
    assert rows[0..] == rows;
    for i := 0 to |s.topics|
      invariant size + |RowsBytes(rows[i..])| == head + |RowsBytes(rows)|
    {
      RowsNext(rows, i);
      var n := TopicSize(s.topics[i]);
      size := size + n;
    }
    NoRows(rows[|rows|..]);
    RowAppend(HeadFields(s.head), [Array(rows)]);
    OneBytes(Array(rows));
  }

  lemma HeadLength(h: Head)
    ensures |RowBytes(HeadFields(h))| == match h
                                         case FetchHead(_, _, _) => 12
                                         case ListOffsetHead(_) => 4
                                         case ProduceHead(_, _) => 6
  {
    hide RowBytes, Sum;
    Sums();
    SumThree(4, 4, 4);
    match h {
      case FetchHead(a, b, c) => IntsLength([4, 4, 4], [a, b, c]);
      case ListOffsetHead(a) => IntsLength([4], [a]);
      case ProduceHead(a, b) => IntsLength([2, 4], [a, b]);
    }
  }

  /** writeRequest with the struct's own size(): the size field counts the bytes after it. */
  method WriteStruct(w: Streams.Writer, apiKey: int, version: int, id: int, client: seq<byte>, s: Struct)
    modifies w
    ensures w.out == old(w.out) + RequestBytes(apiKey, version, id, client, RowBytes(StructFields(s)))
  {
    hide RowBytes, StructFields, HeaderBytes, RequestBytes;
    var size := StructSize(s);
    WriteHeader(w, apiKey, version, id, client, size);
    WriteRow(w, StructFields(s));
    HeaderThen(old(w.out), apiKey, version, id, client, RowBytes(StructFields(s)));
  }

  // ---------------------------------------------------------------------
  // The hand-written writers write these structs
  // ---------------------------------------------------------------------

  lemma OneTopic(head: Head, widths: seq<nat>, values: seq<int>, topic: seq<byte>, p: Partition)
    requires |widths| == |values| && HeadFields(head) == Ints(widths, values)
    ensures StructFields(Struct(head, [Topic(topic, [p])])) == ForPartition(widths, values, topic, PartitionFields(p))
  {
    hide HeadFields, PartitionFields, Ints;
    assert PartitionRows([p]) == [Row(PartitionFields(p))];
    assert TopicRows([Topic(topic, [p])]) == [Row([Str(topic), Array([Row(PartitionFields(p))])])];
  }

  /** What writeFetchRequestV2 emits is this struct. */
  lemma FetchIsStruct(maxWait: int, minBytes: int, topic: seq<byte>, partition: int, offset: int, maxBytes: int)
    ensures FetchV2(maxWait, minBytes, topic, partition, offset, maxBytes)
         == StructFields(Struct(FetchHead(-1, Milliseconds(maxWait), minBytes),
                                [Topic(topic, [Fetch(partition, offset, maxBytes)])]))
  {
    hide Milliseconds;
    OneTopic(FetchHead(-1, Milliseconds(maxWait), minBytes), [4, 4, 4], [-1, Milliseconds(maxWait), minBytes], topic,
             Fetch(partition, offset, maxBytes));
  }

  /** What writeListOffsetRequestV1 emits is this struct. */
  lemma ListOffsetIsStruct(topic: seq<byte>, partition: int, time: int)
    ensures ListOffsetV1(topic, partition, time)
         == StructFields(Struct(ListOffsetHead(-1), [Topic(topic, [ListOffset(partition, time)])]))
  {
    OneTopic(ListOffsetHead(-1), [4], [-1], topic, ListOffset(partition, time));
  }

  /** What writeProduceRequestV2 emits without compression is this struct, its messages sealed by msg.item(). */
  lemma ProduceIsStruct(acks: int, timeout: int, topic: seq<byte>, partition: int, step: ProduceRequests.Step,
                        msgs: seq<ProduceRequests.Message>)
    ensures var items := seq(|msgs|, i requires 0 <= i < |msgs| => ProduceRequests.Sealed(step, msgs[i], 0));
            ForPartition([2, 4], [acks, Milliseconds(timeout)], topic,
                         ProduceRequests.ProduceRow(partition, ProduceRequests.SetBytes(step, msgs, 0)))
            == StructFields(Struct(ProduceHead(acks, Milliseconds(timeout)),
                                   [Topic(topic, [Produce(partition, |MessageSet.SetBytes(items)|, items)])]))
  {
    hide Milliseconds, ProduceRequests.Sealed, MessageSet.SetBytes;
    var items := seq(|msgs|, i requires 0 <= i < |msgs| => ProduceRequests.Sealed(step, msgs[i], 0));
    ProduceRequests.SetBytesPlain(step, msgs);
    OneTopic(ProduceHead(acks, Milliseconds(timeout)), [2, 4], [acks, Milliseconds(timeout)], topic,
             Produce(partition, |MessageSet.SetBytes(items)|, items));
  }
}
