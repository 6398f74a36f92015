/**
 Requests as bytes: the struct codecs with their size() and writeTo
 (protocol.go, sizeof.go, fetch.go, listoffset.go, produce.go), and the
 hand-written request writers of write.go that avoid building the structs.
 */
module Requests {
  import opened Wire
  import Streams
  import RecordBatch

  /** A field of a request struct; an array holds the fields of each element. */
  datatype Field =
    | Int(width: nat, value: int)
    | Str(s: seq<byte>)
    | Raw(b: seq<byte>)
    | Array(rows: seq<Row>)

  datatype Row = Row(fields: seq<Field>)

  // ---------------------------------------------------------------------
  // writeTo and size
  // ---------------------------------------------------------------------

  function Bytes(f: Field): seq<byte>
    decreases f
  {
    match f
    case Int(n, v) => BigEndian(n, v)
    case Str(s) => String(s)
    case Raw(b) => b
    case Array(rows) => Int32(|rows|) + RowsBytes(rows)
  }

  function RowBytes(fs: seq<Field>): seq<byte>
    decreases fs
  {
    if fs == [] then [] else Bytes(fs[0]) + RowBytes(fs[1..])
  }

  function RowsBytes(rows: seq<Row>): seq<byte>
    decreases rows
  {
    if rows == [] then [] else RowBytes(rows[0].fields) + RowsBytes(rows[1..])
  }

  /** sizeof: integers by width, strings with a two-byte and arrays with a four-byte length. */
  method Sizeof(f: Field) returns (size: nat)
    ensures size == |Bytes(f)|
    decreases f
  {
    match f {
      case Int(n, _) => size := n;
      case Str(s) => size := 2 + |s|;
      case Raw(b) => size := |b|;
      case Array(rows) =>
        size := 4;
        for i := 0 to |rows|
          invariant size + |RowsBytes(rows[i..])| == |Bytes(f)|
        {
          assert rows[i..][0] == rows[i] && rows[i..][1..] == rows[i + 1..];
          var n := SizeofRow(rows[i].fields);
          size := size + n;
        }
    }
  }

  /** size() of a struct. */
  method SizeofRow(fs: seq<Field>) returns (size: nat)
    ensures size == |RowBytes(fs)|
    decreases fs
  {
    size := 0;
    for i := 0 to |fs|
      invariant size + |RowBytes(fs[i..])| == |RowBytes(fs)|
    {
      assert fs[i..][0] == fs[i] && fs[i..][1..] == fs[i + 1..];
      var n := Sizeof(fs[i]);
      size := size + n;
    }
  }

  method Write(w: Streams.Writer, f: Field)
    modifies w
    ensures w.out == old(w.out) + Bytes(f)
    decreases f
  {
    match f {
      case Int(n, v) => w.Write(BigEndian(n, v));
      case Str(s) =>
        w.Write(Int16(|s|));
        w.Write(s);
        Assoc(old(w.out), Int16(|s|), s);
      case Raw(b) => w.Write(b);
      case Array(rows) => WriteArray(w, rows);
    }
  }

  method WriteArray(w: Streams.Writer, rows: seq<Row>)
    modifies w
    ensures w.out == old(w.out) + (Int32(|rows|) + RowsBytes(rows))
    decreases rows, 0
  {
    w.Write(Int32(|rows|));
    ghost var start := w.out;
    for i := 0 to |rows|
      invariant w.out + RowsBytes(rows[i..]) == start + RowsBytes(rows)
    {
      ghost var before := w.out;
      assert rows[i..][0] == rows[i] && rows[i..][1..] == rows[i + 1..];
      WriteRow(w, rows[i].fields);
      Assoc(before, RowBytes(rows[i].fields), RowsBytes(rows[i + 1..]));
    }
    Assoc(old(w.out), Int32(|rows|), RowsBytes(rows));
  }

  /** writeTo of a struct. */
  method WriteRow(w: Streams.Writer, fs: seq<Field>)
    modifies w
    ensures w.out == old(w.out) + RowBytes(fs)
    decreases fs
  {
    for i := 0 to |fs|
      invariant w.out + RowBytes(fs[i..]) == old(w.out) + RowBytes(fs)
    {
      ghost var before := w.out;
      assert fs[i..][0] == fs[i] && fs[i..][1..] == fs[i + 1..];
      Write(w, fs[i]);
      Assoc(before, Bytes(fs[i]), RowBytes(fs[i + 1..]));
    }
  }

  /** A request: its size does not count itself. */
  function RequestBytes(apiKey: int, version: int, id: int, client: seq<byte>, body: seq<byte>): seq<byte> {
    Int32(10 + |client| + |body|) + Rest(apiKey, version, id, client, body)
  }

  function Rest(apiKey: int, version: int, id: int, client: seq<byte>, body: seq<byte>): seq<byte> {
    Fields([2, 2, 4], [apiKey, version, id]) + (String(client) + body)
  }

  /** The size field counts exactly the bytes after it. */
  lemma SizeCountsRest(apiKey: int, version: int, id: int, client: seq<byte>, body: seq<byte>)
    ensures RequestBytes(apiKey, version, id, client, body)
         == Int32(|Rest(apiKey, version, id, client, body)|) + Rest(apiKey, version, id, client, body)
  {
    hide BigEndian, Fields;
    var widths: seq<nat> := [2, 2, 4];
    FieldsLength(widths, [apiKey, version, id]);
    assert Sum(widths[1..]) == 2 + Sum(widths[1..][1..]);
  }

  /** writeRequest: the general way, from a struct. */
  method WriteRequest(w: Streams.Writer, apiKey: int, version: int, id: int, client: seq<byte>, fs: seq<Field>)
    modifies w
    ensures w.out == old(w.out) + RequestBytes(apiKey, version, id, client, RowBytes(fs))
  {
    hide RowBytes;
    var size := SizeofRow(fs);
    WriteHeader(w, apiKey, version, id, client, size);
    WriteRow(w, fs);
    HeaderThen(old(w.out), apiKey, version, id, client, RowBytes(fs));
  }

  /** requestHeader.writeTo before a body of `size` bytes. */
  method WriteHeader(w: Streams.Writer, apiKey: int, version: int, id: int, client: seq<byte>, size: nat)
    modifies w
    ensures w.out == old(w.out) + HeaderBytes(apiKey, version, id, client, size)
  {
    hide BigEndian, Fields;
    var headerSize := 4 + 2 + 2 + 4 + (2 + |client|);
    w.Write(Int32(headerSize + size - 4));
    Streams.WriteFields(w, [2, 2, 4], [apiKey, version, id]);
    w.Write(Int16(|client|));
    w.Write(client);
    ghost var a, b := Int32(headerSize + size - 4), Fields([2, 2, 4], [apiKey, version, id]);
    Assoc(old(w.out) + a + b, Int16(|client|), client);
    Assoc(old(w.out) + a, b, String(client));
    Assoc(old(w.out), a, b + String(client));
  }

  function HeaderBytes(apiKey: int, version: int, id: int, client: seq<byte>, size: nat): seq<byte> {
    Int32(10 + |client| + size) + (Fields([2, 2, 4], [apiKey, version, id]) + String(client))
  }

  lemma HeaderThen(before: seq<byte>, apiKey: int, version: int, id: int, client: seq<byte>, body: seq<byte>)
    ensures before + HeaderBytes(apiKey, version, id, client, |body|) + body
         == before + RequestBytes(apiKey, version, id, client, body)
  {
    hide BigEndian, Fields;
    var a, b := Int32(10 + |client| + |body|), Fields([2, 2, 4], [apiKey, version, id]);
    Assoc(b, String(client), body);
    Assoc(a, b + String(client), body);
    Assoc(before, a + (b + String(client)), body);
  }

  // ---------------------------------------------------------------------
  // The requests of a connection, which names one topic and one partition
  // ---------------------------------------------------------------------

  /** Consecutive integer fields. */
  function Ints(widths: seq<nat>, values: seq<int>): (fs: seq<Field>)
    requires |widths| == |values|
    ensures |fs| == |widths|
  {
    seq(|widths|, i requires 0 <= i < |widths| => Int(widths[i], values[i]))
  }

  lemma {:induction false} IntsBytes(widths: seq<nat>, values: seq<int>)
    requires |widths| == |values|
    ensures RowBytes(Ints(widths, values)) == Fields(widths, values)
    decreases |widths|
  {
    hide BigEndian;
    if widths != [] {
      IntsBytes(widths[1..], values[1..]);
      assert Ints(widths, values)[1..] == Ints(widths[1..], values[1..]);
    }
  }

  lemma {:induction false} RowAppend(a: seq<Field>, b: seq<Field>)
    ensures RowBytes(a + b) == RowBytes(a) + RowBytes(b)
    decreases |a|
  {
    hide Bytes;
    if a == [] {
      assert a + b == b;
    } else {
      assert (a + b)[0] == a[0] && (a + b)[1..] == a[1..] + b;
      RowAppend(a[1..], b);
      Assoc(Bytes(a[0]), RowBytes(a[1..]), RowBytes(b));
    }
  }

  lemma OneBytes(f: Field)
    ensures RowBytes([f]) == Bytes(f)
  {
    hide Bytes;
    assert [f][1..] == [];
    assert RowBytes([f]) == Bytes(f) + [];
  }

  lemma OneRow(fs: seq<Field>)
    ensures Bytes(Array([Row(fs)])) == Int32(1) + RowBytes(fs)
  {
    hide BigEndian;
    var rows := [Row(fs)];
    assert rows[1..] == [];
    assert RowsBytes(rows) == RowBytes(fs) + [];
  }

  /** Integer fields, then an array of one topic with an array of one partition. */
  function ForPartition(widths: seq<nat>, values: seq<int>, topic: seq<byte>, partition: seq<Field>): seq<Field>
    requires |widths| == |values|
  {
    Ints(widths, values) + [Array([Row([Str(topic), Array([Row(partition)])])])]
  }

  function Flat(widths: seq<nat>, values: seq<int>, topic: seq<byte>, partition: seq<byte>): seq<byte>
    requires |widths| == |values|
  {
    Fields(widths, values) + (Int32(1) + (String(topic) + (Int32(1) + partition)))
  }

  lemma ForPartitionBytes(widths: seq<nat>, values: seq<int>, topic: seq<byte>, partition: seq<Field>)
    requires |widths| == |values|
    ensures RowBytes(ForPartition(widths, values, topic, partition)) == Flat(widths, values, topic, RowBytes(partition))
  {
    hide BigEndian, RowBytes, Bytes;
    var inner := Array([Row(partition)]);
    var row := [Str(topic), inner];
    RowAppend(Ints(widths, values), [Array([Row(row)])]);
    IntsBytes(widths, values);
    OneBytes(Array([Row(row)]));
    OneRow(row);
    assert row == [Str(topic)] + [inner];
    RowAppend([Str(topic)], [inner]);
    OneBytes(Str(topic));
    OneBytes(inner);
    OneRow(partition);
    StrBytes(topic);
  }

  lemma StrBytes(s: seq<byte>)
    ensures Bytes(Str(s)) == String(s)
  {
  }

  /** The part the writers below have in common: integers, one topic, one partition. */
  method WritePartition(w: Streams.Writer, widths: seq<nat>, values: seq<int>, topic: seq<byte>,
                        partitionWidths: seq<nat>, partition: seq<int>)
    requires |widths| == |values| && |partitionWidths| == |partition|
    modifies w
    ensures w.out == old(w.out) + Flat(widths, values, topic, Fields(partitionWidths, partition))
  {
    hide BigEndian, Fields;
    Streams.WriteFields(w, widths, values);
    w.Write(Int32(1));
    w.Write(Int16(|topic|));
    w.Write(topic);
    w.Write(Int32(1));
    Streams.WriteFields(w, partitionWidths, partition);
    ghost var a, p := Fields(widths, values), Fields(partitionWidths, partition);
    ghost var start := old(w.out) + a + Int32(1);
    Assoc(start, Int16(|topic|), topic);
    Assoc(start + String(topic), Int32(1), p);
    Assoc(start, String(topic), Int32(1) + p);
    Assoc(old(w.out) + a, Int32(1), String(topic) + (Int32(1) + p));
    Assoc(old(w.out), a, Int32(1) + (String(topic) + (Int32(1) + p)));
  }

  /** milliseconds: clamped to what an int32 holds, rounded towards zero. */
  function Milliseconds(d: int): (ms: int)
    ensures -0x8000_0000 <= ms < 0x8000_0000
    ensures d > 0x7fff_ffff * 1_000_000 ==> ms == 0x7fff_ffff
    ensures d < -0x8000_0000 * 1_000_000 ==> ms == -0x8000_0000
    ensures 0 <= d <= 0x7fff_ffff * 1_000_000 ==> ms * 1_000_000 <= d < (ms + 1) * 1_000_000
    ensures -0x8000_0000 * 1_000_000 <= d <= 0 ==> (ms - 1) * 1_000_000 < d <= ms * 1_000_000
  {
    var c := if d > 0x7fff_ffff * 1_000_000 then 0x7fff_ffff * 1_000_000
             else if d < -0x8000_0000 * 1_000_000 then -0x8000_0000 * 1_000_000
             else d;
    RecordBatch.Millis(c)
  }

  lemma FlatLength(widths: seq<nat>, values: seq<int>, topic: seq<byte>, partition: seq<byte>)
    requires |widths| == |values|
    ensures |Flat(widths, values, topic, partition)| == Sum(widths) + 10 + |topic| + |partition|
  {
    hide BigEndian, Fields;
    FieldsLength(widths, values);
  }

  /** A header and the flat form, with the right size, are the request of the struct. */
  lemma IsRequest(before: seq<byte>, apiKey: int, version: int, id: int, client: seq<byte>, size: nat,
                  widths: seq<nat>, values: seq<int>, topic: seq<byte>, partition: seq<Field>)
    requires |widths| == |values| && size == Sum(widths) + 10 + |topic| + |RowBytes(partition)|
    ensures before + HeaderBytes(apiKey, version, id, client, size) + Flat(widths, values, topic, RowBytes(partition))
         == before + RequestBytes(apiKey, version, id, client, RowBytes(ForPartition(widths, values, topic, partition)))
  {
    hide RowBytes, Flat, HeaderBytes, RequestBytes;
    ForPartitionBytes(widths, values, topic, partition);
    FlatLength(widths, values, topic, RowBytes(partition));
    HeaderThen(before, apiKey, version, id, client, Flat(widths, values, topic, RowBytes(partition)));
  }

  lemma IsIntsRequest(before: seq<byte>, apiKey: int, version: int, id: int, client: seq<byte>, size: nat,
                      widths: seq<nat>, values: seq<int>, topic: seq<byte>,
                      partitionWidths: seq<nat>, partition: seq<int>)
    requires |widths| == |values| && |partitionWidths| == |partition|
    requires size == Sum(widths) + 10 + |topic| + Sum(partitionWidths)
    ensures before + HeaderBytes(apiKey, version, id, client, size)
            + Flat(widths, values, topic, Fields(partitionWidths, partition))
         == before + RequestBytes(apiKey, version, id, client,
                                  RowBytes(ForPartition(widths, values, topic, Ints(partitionWidths, partition))))
  {
    hide RowBytes, Flat, HeaderBytes, RequestBytes, Sum, Fields;
    IntsBytes(partitionWidths, partition);
    FieldsLength(partitionWidths, partition);
    IsRequest(before, apiKey, version, id, client, size, widths, values, topic, Ints(partitionWidths, partition));
  }

  lemma Sums()
    ensures Sum([4, 4, 4, 4, 1]) == 17 && Sum([4, 8, 8, 4]) == 24 && Sum([4]) == 4 && Sum([4, 8]) == 12
    ensures Sum([2, 4]) == 6 && Sum([4, 4]) == 8
  {
    var a: seq<nat>, b: seq<nat> := [4, 4, 4, 4, 1], [4, 8, 8, 4];
    SumThree(4, 4, 1);
    SumThree(8, 8, 4);
    assert a[1..][1..] == [4, 4, 1] && b[1..] == [8, 8, 4];
  }

  // ---------------------------------------------------------------------
  // Fetch and list-offset requests
  // ---------------------------------------------------------------------

  /** fetchRequestV2 for one partition. */
  function FetchV2(maxWait: int, minBytes: int, topic: seq<byte>, partition: int, offset: int,
                   maxBytes: int): seq<Field> {
    ForPartition([4, 4, 4], [-1, Milliseconds(maxWait), minBytes], topic,
                 Ints([4, 8, 4], [partition, offset, maxBytes]))
  }

  /** writeFetchRequestV2 emits what writeRequest emits for the struct. */
  method WriteFetchRequestV2(w: Streams.Writer, id: int, client: seq<byte>, topic: seq<byte>, partition: int,
                             offset: int, minBytes: int, maxBytes: int, maxWait: int)
    modifies w
    ensures w.out == old(w.out) + RequestBytes(1, 2, id, client,
                                    RowBytes(FetchV2(maxWait, minBytes, topic, partition, offset, maxBytes)))
  {
    hide BigEndian, Fields, RowBytes, Milliseconds, HeaderBytes, RequestBytes, Flat, Sum;
    var ms := Milliseconds(maxWait);
    var size := 4 + 4 + 4 + 4 + (2 + |topic|) + 4 + 4 + 8 + 4;
    WriteHeader(w, 1, 2, id, client, size);
    WritePartition(w, [4, 4, 4], [-1, ms, minBytes], topic, [4, 8, 4], [partition, offset, maxBytes]);
    SumThree(4, 4, 4);
    SumThree(4, 8, 4);
    IsIntsRequest(old(w.out), 1, 2, id, client, size, [4, 4, 4], [-1, ms, minBytes], topic,
                  [4, 8, 4], [partition, offset, maxBytes]);
  }

  /** Format 5 adds a second maximum, the isolation level and the log start offset. */
  function FetchV5(maxWait: int, minBytes: int, isolation: int, topic: seq<byte>, partition: int, offset: int,
                   maxBytes: int): seq<Field> {
    ForPartition([4, 4, 4, 4, 1], [-1, Milliseconds(maxWait), minBytes, maxBytes, isolation], topic,
                 Ints([4, 8, 8, 4], [partition, offset, 0, maxBytes]))
  }

  /** On the wire: no replica, the limits, one topic, one partition of it, no log start offset. */
  lemma FetchV5Bytes(maxWait: int, minBytes: int, isolation: int, topic: seq<byte>, partition: int, offset: int,
                     maxBytes: int)
    ensures RowBytes(FetchV5(maxWait, minBytes, isolation, topic, partition, offset, maxBytes))
         == Int32(-1) + Int32(Milliseconds(maxWait)) + Int32(minBytes) + Int32(maxBytes) + Int8(isolation)
            + (Int32(1) + (String(topic)
                           + (Int32(1) + (Int32(partition) + Int64(offset) + Int64(0) + Int32(maxBytes)))))
  {
    hide BigEndian, RowBytes, Fields, Milliseconds;
    var ms := Milliseconds(maxWait);
    var ws, vs := [4, 4, 4, 4, 1], [-1, ms, minBytes, maxBytes, isolation];
    ForPartitionBytes(ws, vs, topic, Ints([4, 8, 8, 4], [partition, offset, 0, maxBytes]));
    IntsBytes([4, 8, 8, 4], [partition, offset, 0, maxBytes]);
    FourFields(4, 8, 8, 4, partition, offset, 0, maxBytes);
    FourFields(4, 4, 4, 4, -1, ms, minBytes, maxBytes);
    FieldsSplit(ws, vs, 4);
    assert ws[..4] == [4, 4, 4, 4] && vs[..4] == [-1, ms, minBytes, maxBytes];
    assert ws[4..] == [1] && vs[4..] == [isolation];
    LastField(1, isolation);
  }

  lemma LastField(w: nat, v: int)
    ensures Fields([w], [v]) == BigEndian(w, v)
  {
    assert Fields([w], [v]) == BigEndian(w, v) + Fields([w][1..], [v][1..]);
  }

  lemma TwoFields(a: nat, b: nat, v: int, w: int)
    ensures Fields([a, b], [v, w]) == BigEndian(a, v) + BigEndian(b, w)
  {
    hide BigEndian;
    LastField(b, w);
    assert [a, b][1..] == [b] && [v, w][1..] == [w];
  }

  lemma FourFields(a: nat, b: nat, c: nat, d: nat, v: int, w: int, x: int, y: int)
    ensures Fields([a, b, c, d], [v, w, x, y]) == BigEndian(a, v) + BigEndian(b, w) + BigEndian(c, x) + BigEndian(d, y)
  {
    hide BigEndian, Fields;
    var ws, vs := [a, b, c, d], [v, w, x, y];
    FieldsSplit(ws, vs, 2);
    assert ws[..2] == [a, b] && vs[..2] == [v, w] && ws[2..] == [c, d] && vs[2..] == [x, y];
    TwoFields(a, b, v, w);
    TwoFields(c, d, x, y);
    Assoc(BigEndian(a, v) + BigEndian(b, w), BigEndian(c, x), BigEndian(d, y));
  }

  method WriteFetchRequestV5(w: Streams.Writer, id: int, client: seq<byte>, topic: seq<byte>, partition: int,
                             offset: int, minBytes: int, maxBytes: int, maxWait: int, isolation: int)
    modifies w
    ensures w.out == old(w.out) + RequestBytes(1, 5, id, client,
                                    RowBytes(FetchV5(maxWait, minBytes, isolation, topic, partition, offset, maxBytes)))
  {
    hide BigEndian, Fields, RowBytes, Milliseconds, HeaderBytes, RequestBytes, Flat, Sum;
    var ms := Milliseconds(maxWait);
    var size := 4 + 4 + 4 + 4 + 1 + 4 + (2 + |topic|) + 4 + 4 + 8 + 8 + 4;
    WriteHeader(w, 1, 5, id, client, size);
    WritePartition(w, [4, 4, 4, 4, 1], [-1, ms, minBytes, maxBytes, isolation], topic,
                   [4, 8, 8, 4], [partition, offset, 0, maxBytes]);
    Sums();
    IsIntsRequest(old(w.out), 1, 5, id, client, size, [4, 4, 4, 4, 1], [-1, ms, minBytes, maxBytes, isolation], topic,
                  [4, 8, 8, 4], [partition, offset, 0, maxBytes]);
  }

  /** listOffsetRequestV1 for one partition. */
  function ListOffsetV1(topic: seq<byte>, partition: int, time: int): seq<Field> {
    ForPartition([4], [-1], topic, Ints([4, 8], [partition, time]))
  }

  method WriteListOffsetRequestV1(w: Streams.Writer, id: int, client: seq<byte>, topic: seq<byte>, partition: int,
                                  time: int)
    modifies w
    ensures w.out == old(w.out) + RequestBytes(2, 1, id, client, RowBytes(ListOffsetV1(topic, partition, time)))
  {
    hide BigEndian, Fields, RowBytes, HeaderBytes, RequestBytes, Flat, Sum;
    var size := 4 + 4 + (2 + |topic|) + 4 + 4 + 8;
    WriteHeader(w, 2, 1, id, client, size);
    WritePartition(w, [4], [-1], topic, [4, 8], [partition, time]);
    Sums();
    IsIntsRequest(old(w.out), 2, 1, id, client, size, [4], [-1], topic, [4, 8], [partition, time]);
  }
}
