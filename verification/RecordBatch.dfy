/**
 Message format 2 as values: records and record batches as write.go emits them
 and as messageSetReaderV2 of message.go reads them (sections 5.3.1 and 5.3.2
 of the Apache Kafka documentation).
 */
module RecordBatch {
  import opened Collections
  import opened Wire
  import opened Codecs
  import VarInt

  datatype Header = Header(key: seq<byte>, value: Slice)

  /** A message to write; `time` is in nanoseconds. */
  datatype Message = Message(time: int, key: Slice, value: Slice, headers: seq<Header>)

  // ---------------------------------------------------------------------
  // Records
  // ---------------------------------------------------------------------

  function Sized(b: seq<byte>): seq<byte> {
    VarInt.Encode(|b|) + b
  }

  function HeaderBytes(h: Header): seq<byte> {
    Sized(h.key) + Sized(h.value.Contents())
  }

  function HeadersBytes(hs: seq<Header>): seq<byte> {
    if hs == [] then [] else HeaderBytes(hs[0]) + HeadersBytes(hs[1..])
  }

  function Deltas(timestampDelta: int, offsetDelta: int): seq<byte> {
    Int8(0) + VarInt.Encode(timestampDelta) + VarInt.Encode(offsetDelta)
  }

  function Body(timestampDelta: int, offsetDelta: int, m: Message): seq<byte> {
    Deltas(timestampDelta, offsetDelta)
    + (Sized(m.key.Contents()) + Sized(m.value.Contents()))
    + (VarInt.Encode(|m.headers|) + HeadersBytes(m.headers))
  }

  function RecordBytes(timestampDelta: int, offsetDelta: int, m: Message): seq<byte> {
    var body := Body(timestampDelta, offsetDelta, m);
    VarInt.Encode(|body|) + body
  }

  datatype Record = Record(timestampDelta: int, offsetDelta: int, key: Slice, value: Slice, headers: seq<Header>)

  function Received(timestampDelta: int, offsetDelta: int, m: Message): Record {
    Record(timestampDelta, offsetDelta, m.key.Normal(), m.value.Normal(), NormalHeaders(m.headers))
  }

  function NormalHeaders(hs: seq<Header>): (r: seq<Header>)
    ensures |r| == |hs|
  {
    if hs == [] then [] else [Header(hs[0].key, hs[0].value.Normal())] + NormalHeaders(hs[1..])
  }

  function ReadSized(s: Src): R<Slice> {
    var (n, t) :- VarInt.Read(s);
    ReadNewBytes(t, n)
  }

  function ReadHeader(s: Src): R<Header> {
    var (key, t) :- ReadSized(s);
    var (value, u) :- ReadSized(t);
    Ok(Header(key.Contents(), value), u)
  }

  function ReadHeaders(s: Src, n: nat): R<seq<Header>>
    decreases n
  {
    if n == 0 then Ok([], s)
    else
      var (h, t) :- ReadHeader(s);
      var (hs, u) :- ReadHeaders(t, n - 1);
      Ok([h] + hs, u)
  }

  /** The length is read and not used; so is the attribute byte. */
  function ReadDeltas(s: Src): R<(int, int)> {
    var (length, t) :- VarInt.Read(s);
    var (attributes, u) :- ReadInt(t, 1);
    var (timestampDelta, v) :- VarInt.Read(u);
    var (offsetDelta, w) :- VarInt.Read(v);
    Ok((timestampDelta, offsetDelta), w)
  }

  function ReadKeyValue(s: Src): R<(Slice, Slice)> {
    var (key, t) :- ReadSized(s);
    var (value, u) :- ReadSized(t);
    Ok((key, value), u)
  }

  /** A negative header count makes the slice allocation panic. */
  function ReadHeaderList(s: Src): R<seq<Header>> {
    var (n, t) :- VarInt.Read(s);
    if n < 0 then Fail(Panicked, t) else ReadHeaders(t, n)
  }

  function ReadRecord(s: Src): R<Record> {
    var (deltas, t) :- ReadDeltas(s);
    var (kv, u) :- ReadKeyValue(t);
    var (headers, v) :- ReadHeaderList(u);
    Ok(Record(deltas.0, deltas.1, kv.0, kv.1, headers), v)
  }

  // ---------------------------------------------------------------------
  // Records: conservation on arbitrary bytes
  // ---------------------------------------------------------------------

  lemma ReadSizedConserves(s: Src)
    ensures Tail(s, ReadSized(s).rest)
  {
    hide VarInt.Read;
    VarInt.ReadConserves(s);
    var r := VarInt.Read(s);
    if r.Ok? {
      ReadNewBytesConserves(r.rest, r.value);
      TailTransitive(s, r.rest, ReadNewBytes(r.rest, r.value).rest);
    }
  }

  lemma ReadPairConserves(s: Src)
    ensures Tail(s, ReadHeader(s).rest)
    ensures Tail(s, ReadKeyValue(s).rest)
  {
    hide ReadSized;
    ReadSizedConserves(s);
    var r := ReadSized(s);
    if r.Ok? {
      ReadSizedConserves(r.rest);
      TailTransitive(s, r.rest, ReadSized(r.rest).rest);
    }
  }

  lemma {:induction false} ReadHeadersConserves(s: Src, n: nat)
    ensures Tail(s, ReadHeaders(s, n).rest)
    decreases n
  {
    hide ReadHeader;
    if n > 0 {
      ReadPairConserves(s);
      var r := ReadHeader(s);
      if r.Ok? {
        ReadHeadersConserves(r.rest, n - 1);
        TailTransitive(s, r.rest, ReadHeaders(r.rest, n - 1).rest);
      }
    }
  }

  lemma ReadHeaderListConserves(s: Src)
    ensures Tail(s, ReadHeaderList(s).rest)
  {
    hide VarInt.Read;
    VarInt.ReadConserves(s);
    var r := VarInt.Read(s);
    if r.Ok? && r.value >= 0 {
      ReadHeadersConserves(r.rest, r.value);
      TailTransitive(s, r.rest, ReadHeaders(r.rest, r.value).rest);
    }
  }

  lemma ReadDeltasConserves(s: Src)
    ensures Tail(s, ReadDeltas(s).rest)
  {
    hide VarInt.Read, ReadInt, Tail;
    TailSteps(s);
    VarInt.ReadConserves(s);
    var t := VarInt.Read(s).rest;
    ReadIntConserves(t, 1);
    var u := ReadInt(t, 1).rest;
    VarInt.ReadConserves(u);
    VarInt.ReadConserves(VarInt.Read(u).rest);
  }

  /** On arbitrary bytes, reading a record accounts for every byte it consumes. */
  lemma ReadRecordConserves(s: Src)
    ensures Tail(s, ReadRecord(s).rest)
  {
    hide ReadDeltas, ReadKeyValue, ReadHeaderList, Tail;
    TailSteps(s);
    ReadDeltasConserves(s);
    var t := ReadDeltas(s).rest;
    ReadPairConserves(t);
    ReadHeaderListConserves(ReadKeyValue(t).rest);
  }

  // ---------------------------------------------------------------------
  // Records: round trip
  // ---------------------------------------------------------------------

  /** Sizes the writer can count in an int32. */
  ghost predicate Small(m: Message) {
    && m.key.Len() < 0x8000_0000 && m.value.Len() < 0x8000_0000 && |m.headers| < 0x8000_0000
    && forall h :: h in m.headers ==> |h.key| < 0x8000_0000 && h.value.Len() < 0x8000_0000
  }

  lemma ReadsSized(b: Slice, rest: seq<byte>, k: nat)
    requires b.Len() < 0x8000_0000
    ensures ReadSized(Src(Sized(b.Contents()) + rest, |Sized(b.Contents())| + k)) == Ok(b.Normal(), Src(rest, k))
  {
    hide VarInt.Read, VarInt.Encode;
    var c := b.Contents();
    assert Sized(c) + rest == VarInt.Encode(|c|) + (c + rest);
    VarInt.RoundTrip(|c|, c + rest, |Sized(c)| + k);
    assert (c + rest)[..|c|] == c && (c + rest)[|c|..] == rest;
  }

  lemma ReadsPair(a: Slice, b: Slice, rest: seq<byte>, k: nat)
    requires a.Len() < 0x8000_0000 && b.Len() < 0x8000_0000
    ensures var x := Sized(a.Contents()) + Sized(b.Contents());
            var s := Src(x + rest, |x| + k);
            && ReadKeyValue(s) == Ok((a.Normal(), b.Normal()), Src(rest, k))
            && ReadHeader(s) == Ok(Header(a.Contents(), b.Normal()), Src(rest, k))
  {
    hide ReadSized, Sized;
    var x, y := Sized(a.Contents()), Sized(b.Contents());
    assert x + y + rest == x + (y + rest);
    ReadsSized(a, y + rest, |y| + k);
    ReadsSized(b, rest, k);
  }

  lemma {:induction false} ReadsHeaders(hs: seq<Header>, rest: seq<byte>, k: nat)
    requires forall h :: h in hs ==> |h.key| < 0x8000_0000 && h.value.Len() < 0x8000_0000
    ensures ReadHeaders(Src(HeadersBytes(hs) + rest, |HeadersBytes(hs)| + k), |hs|)
         == Ok(NormalHeaders(hs), Src(rest, k))
  {
    hide ReadHeader, Sized;
    if hs == [] {
      assert HeadersBytes(hs) + rest == rest;
    } else {
      var x, y := HeaderBytes(hs[0]), HeadersBytes(hs[1..]);
      Assoc(x, y, rest);
      assert hs[0] in hs;
      ReadsPair(Bytes(hs[0].key), hs[0].value, y + rest, |y| + k);
      ReadsHeaders(hs[1..], rest, k);
    }
  }

  lemma ReadsHeaderList(hs: seq<Header>, rest: seq<byte>, k: nat)
    requires |hs| < 0x8000_0000
    requires forall h :: h in hs ==> |h.key| < 0x8000_0000 && h.value.Len() < 0x8000_0000
    ensures var x := VarInt.Encode(|hs|) + HeadersBytes(hs);
            ReadHeaderList(Src(x + rest, |x| + k)) == Ok(NormalHeaders(hs), Src(rest, k))
  {
    hide VarInt.Encode, VarInt.Read, ReadHeaders, HeadersBytes;
    var x, y := VarInt.Encode(|hs|), HeadersBytes(hs);
    assert x + y + rest == x + (y + rest);
    VarInt.RoundTrip(|hs|, y + rest, |x| + |y| + k);
    ReadsHeaders(hs, rest, k);
  }

  lemma ReadsZero(rest: seq<byte>, k: nat)
    ensures ReadInt(Src(Int8(0) + rest, 1 + k), 1) == Ok(0, Src(rest, k))
  {
    ReadsInt(1, 0, rest, 1 + k);
  }

  lemma ReadsDeltas(length: int, ts: int, off: int, rest: seq<byte>, k: nat)
    requires VarInt.InRange(length) && VarInt.InRange(ts) && VarInt.InRange(off)
    ensures var x := VarInt.Encode(length) + Deltas(ts, off);
            ReadDeltas(Src(x + rest, |x| + k)) == Ok((ts, off), Src(rest, k))
  {
    hide VarInt.Encode, VarInt.Read, VarInt.InRange, ReadInt, Int8;
    var a, b, c, d := VarInt.Encode(length), Int8(0), VarInt.Encode(ts), VarInt.Encode(off);
    Assoc(a, b + c + d, rest);
    Assoc(b + c, d, rest);
    Assoc(b, c, d + rest);
    VarInt.RoundTrip(length, b + (c + (d + rest)), |a| + (1 + |c| + |d| + k));
    ReadsZero(c + (d + rest), |c| + |d| + k);
    VarInt.RoundTrip(ts, d + rest, |c| + (|d| + k));
    VarInt.RoundTrip(off, rest, |d| + k);
  }

  /** A written record reads back as itself, nil and empty slices identified, and leaves any suffix. */
  lemma ReadsRecord(ts: int, off: int, m: Message, rest: seq<byte>, k: nat)
    requires VarInt.InRange(ts) && VarInt.InRange(off) && Small(m)
    requires |Body(ts, off, m)| < 0x8000_0000
    ensures ReadRecord(Src(RecordBytes(ts, off, m) + rest, |RecordBytes(ts, off, m)| + k))
         == Ok(Received(ts, off, m), Src(rest, k))
  {
    hide VarInt.Encode, ReadDeltas, ReadKeyValue, ReadHeaderList, Deltas, Sized, HeadersBytes;
    var x := VarInt.Encode(|Body(ts, off, m)|) + Deltas(ts, off);
    var y := Sized(m.key.Contents()) + Sized(m.value.Contents());
    var z := VarInt.Encode(|m.headers|) + HeadersBytes(m.headers);
    Assoc(VarInt.Encode(|Body(ts, off, m)|), Deltas(ts, off) + y, z);
    Assoc(VarInt.Encode(|Body(ts, off, m)|), Deltas(ts, off), y);
    Assoc(x + y, z, rest);
    Assoc(x, y, z + rest);
    ReadsDeltas(|Body(ts, off, m)|, ts, off, y + (z + rest), |y| + |z| + k);
    ReadsPair(m.key, m.value, z + rest, |z| + k);
    ReadsHeaderList(m.headers, rest, k);
  }

  // ---------------------------------------------------------------------
  // Batches as written
  // ---------------------------------------------------------------------

  /** `codec` is the writer's codec, `base` the first offset, which the broker assigns. */
  datatype Batch = Batch(base: int, codec: Option<Codec>, crc: int, msgs: seq<Message>)

  /** timestamp(): milliseconds, rounded towards zero. */
  function Millis(time: int): int {
    if time >= 0 then time / 1_000_000 else -(-time / 1_000_000)
  }

  function Records(baseTime: int, first: nat, msgs: seq<Message>): seq<byte>
    decreases |msgs|
  {
    if msgs == [] then []
    else RecordBytes(msgs[0].time - baseTime, first, msgs[0]) + Records(baseTime, first + 1, msgs[1..])
  }

  function Payload(b: Batch): seq<byte>
    requires b.msgs != []
  {
    var records := Records(b.msgs[0].time, 0, b.msgs);
    if b.codec.None? then records else b.codec.value.Encode(records)
  }

  /**
   Base offset, length, leader epoch, magic, crc, attributes, last offset
   delta, first and last timestamp, producer id and epoch, first sequence, count.
   */
  const LAYOUT: seq<nat> := [8, 4, 4, 1, 4, 2, 4, 8, 8, 8, 2, 4, 4]

  function HeaderValues(b: Batch): (v: seq<int>)
    requires b.msgs != []
    ensures |v| == |LAYOUT|
  {
    [b.base, |Payload(b)| + 49, -1, 2, b.crc, if b.codec.None? then 0 else b.codec.value.code, |b.msgs| - 1,
     Millis(b.msgs[0].time), Millis(b.msgs[|b.msgs| - 1].time), -1, -1, -1, |b.msgs|]
  }

  function BatchBytes(b: Batch): seq<byte>
    requires b.msgs != []
  {
    Fields(LAYOUT, HeaderValues(b)) + Payload(b)
  }

  /** The bytes the checksum covers: everything after it. */
  function Checked(b: Batch): seq<byte>
    requires b.msgs != []
  {
    Fields(LAYOUT[5..], HeaderValues(b)[5..]) + Payload(b)
  }

  predicate NonEmpty(bs: seq<Batch>) {
    forall i :: 0 <= i < |bs| ==> bs[i].msgs != []
  }

  function BatchesBytes(bs: seq<Batch>): seq<byte>
    requires NonEmpty(bs)
  {
    if bs == [] then [] else BatchBytes(bs[0]) + BatchesBytes(bs[1..])
  }

  // ---------------------------------------------------------------------
  // The reader
  // ---------------------------------------------------------------------

  datatype BatchHeader = BatchHeader(
    firstOffset: int, length: int, leaderEpoch: int, magic: int, crc: int, attributes: int, lastOffsetDelta: int,
    firstTimestamp: int, maxTimestamp: int, producerId: int, producerEpoch: int, firstSequence: int)

  function ToHeader(v: seq<int>): BatchHeader
    requires |v| == |LAYOUT|
  {
    BatchHeader(v[0], v[1], v[2], v[3], v[4], v[5], v[6], v[7], v[8], v[9], v[10], v[11])
  }

  function Listed(h: BatchHeader): (v: seq<int>)
    ensures |v| == |LAYOUT| - 1
  {
    [h.firstOffset, h.length, h.leaderEpoch, h.magic, h.crc, h.attributes, h.lastOffsetDelta, h.firstTimestamp,
     h.maxTimestamp, h.producerId, h.producerEpoch, h.firstSequence]
  }

  /** The header with those fields replaced that were read, the others as they were. */
  function Overlay(h: BatchHeader, v: seq<int>): (r: BatchHeader)
    ensures |v| == |LAYOUT| ==> r == ToHeader(v)
  {
    var n := |v|;
    BatchHeader(
      if n > 0 then v[0] else h.firstOffset, if n > 1 then v[1] else h.length, if n > 2 then v[2] else h.leaderEpoch,
      if n > 3 then v[3] else h.magic, if n > 4 then v[4] else h.crc, if n > 5 then v[5] else h.attributes,
      if n > 6 then v[6] else h.lastOffsetDelta, if n > 7 then v[7] else h.firstTimestamp,
      if n > 8 then v[8] else h.maxTimestamp, if n > 9 then v[9] else h.producerId,
      if n > 10 then v[10] else h.producerEpoch, if n > 11 then v[11] else h.firstSequence)
  }

  lemma OverlayKeeps(h: BatchHeader, v: seq<int>, i: nat)
    requires i < |LAYOUT| - 1
    ensures Listed(Overlay(h, v))[i] == if i < |v| then v[i] else Listed(h)[i]
  {
  }

  /** A buffered reader of `capacity` bytes and what its enclosing size says is left. */
  datatype Frame = Frame(src: Src, capacity: nat)

  /** messageSetReaderV2: the connection's frame at the bottom of the stack, decompressed ones above. */
  datatype State = State(stack: seq<Frame>, count: int, header: BatchHeader) {
    function Top(): Frame
      requires stack != []
    {
      stack[|stack| - 1]
    }

    function SetTop(src: Src): State
      requires stack != []
    {
      this.(stack := stack[|stack| - 1 := Frame(src, Top().capacity)])
    }
  }

  datatype Fetched = Fetched(offset: int, timestamp: int, key: Slice, value: Slice, headers: seq<Header>)

  datatype Step = Step(err: Err, st: State)

  datatype Outcome = Got(m: Fetched, next: State) | Failed(err: Err, next: State)

  /** The buffer size of a reader over decompressed bytes. */
  const DEFAULT_CAPACITY: nat := 4096

  function Unwind(st: State): State
    requires st.stack != []
  {
    if st.Top().src.remain == 0 && |st.stack| > 1 then st.(stack := st.stack[..|st.stack| - 1]) else st
  }

  function Decompress(codecs: Registry, st: State): (r: Step)
    requires st.stack != []
    ensures r.st.stack != []
  {
    var code, n, f := st.header.attributes % 8, Wrap32(st.header.length - 49), st.Top();
    if code == 0 then Step(NoError, st)
    else if code !in codecs then Step(UnknownCodec, st)
    else if n > f.src.remain then Step(ShortRead, st)
    else if n < 0 then Step(NegativeCount, st)
    else if n > f.capacity then Step(BufferFull, st)
    else if n > |f.src.data| then Step(EndOfStream, st)
    else match codecs[code].Decode(f.src.data[..n])
      case None => Step(CorruptPayload, st)
      case Some(d) =>
        var below := st.SetTop(f.src.Drop(n));
        Step(NoError, below.(stack := below.stack + [Frame(Src(d, |d|), DEFAULT_CAPACITY)]))
  }

  /** Of the attributes only the three lowest bits matter here: the codec, zero for none. */
  lemma CodecBits(codecs: Registry, st: State, q: int, c: nat)
    requires st.stack != [] && st.header.attributes == 8 * q + c && c < 8
    ensures var r, t := Decompress(codecs, st), st.(header := st.header.(attributes := c));
            r == Decompress(codecs, t).(st := Decompress(codecs, t).st.(header := st.header))
    ensures c == 0 ==> Decompress(codecs, st) == Step(NoError, st)
    ensures c != 0 && c !in codecs ==> Decompress(codecs, st) == Step(UnknownCodec, st)
  {
    hide Wrap32;
    assert st.header.attributes % 8 == c;
  }

  function OpenBatch(codecs: Registry, st: State): (r: Step)
    requires st.stack != []
    ensures r.st.stack != []
  {
    var u := Unwind(st);
    match ReadFields(u.Top().src, LAYOUT)
    case Fail(e, t) => Step(e, u.SetTop(t).(header := Overlay(st.header, FieldsRead(u.Top().src, LAYOUT))))
    case Ok(v, t) => Decompress(codecs, u.SetTop(t).(header := ToHeader(v), count := v[12]))
  }

  function NextRecord(st: State): (r: Outcome)
    requires st.stack != []
    ensures r.next.stack != []
  {
    match ReadRecord(st.Top().src)
    case Fail(e, t) => Failed(e, st.SetTop(t))
    case Ok(v, t) =>
      var m := Fetched(Wrap64(st.header.firstOffset + v.offsetDelta),
                       Wrap64(st.header.firstTimestamp + v.timestampDelta),
                       v.key, v.value, v.headers);
      Got(m, st.SetTop(t).(count := st.count - 1))
  }

  function ReadMessage(codecs: Registry, st: State): (r: Outcome)
    requires st.stack != []
    ensures r.next.stack != []
  {
    var o := if st.count == 0 then OpenBatch(codecs, st) else Step(NoError, st);
    if o.err != NoError then Failed(o.err, o.st) else NextRecord(o.st)
  }

  /** discard: the rest of the frame on top. */
  function Discard(st: State): (r: State)
    requires st.stack != []
    ensures r.stack != []
  {
    var src := st.Top().src;
    st.SetTop(DiscardN(src, src.remain).rest)
  }

  /**
   Before a batch is opened the header of the last one is never looked at: a
   read differs at most in the header it leaves behind when it fails.
   */
  lemma HeaderUnread(codecs: Registry, st: State, h: BatchHeader)
    requires st.stack != [] && st.count == 0
    ensures var a, b := ReadMessage(codecs, st), ReadMessage(codecs, st.(header := h));
            || a == b
            || (a.Failed? && a.next.count == 0 && b == Failed(a.err, a.next.(header := b.next.header)))
  {
    hide ReadFields, FieldsRead, Decompress, NextRecord, Overlay;
    var u := Unwind(st);
    assert Unwind(st.(header := h)) == u.(header := h);
    ReadFieldsError(u.Top().src, LAYOUT);
    match ReadFields(u.Top().src, LAYOUT) {
      case Fail(e, t) =>
      case Ok(v, t) =>
        assert OpenBatch(codecs, st) == OpenBatch(codecs, st.(header := h));
    }
  }

  // ---------------------------------------------------------------------
  // Arbitrary bytes: the connection's frame
  // ---------------------------------------------------------------------

  lemma UnwindConserves(st: State)
    requires st.stack != []
    ensures Unwind(st).stack != []
    ensures Tail(st.stack[0].src, Unwind(st).stack[0].src)
  {
  }

  lemma SetTopConserves(st: State, src: Src)
    requires st.stack != [] && Tail(st.Top().src, src)
    ensures Tail(st.stack[0].src, st.SetTop(src).stack[0].src)
  {
  }

  lemma DecompressConserves(codecs: Registry, st: State)
    requires st.stack != []
    ensures Tail(st.stack[0].src, Decompress(codecs, st).st.stack[0].src)
  {
    var n, f := Wrap32(st.header.length - 49), st.Top();
    if 0 <= n <= f.src.remain && n <= |f.src.data| {
      SetTopConserves(st, f.src.Drop(n));
    }
  }

  lemma OpenBatchConserves(codecs: Registry, st: State)
    requires st.stack != []
    ensures Tail(st.stack[0].src, OpenBatch(codecs, st).st.stack[0].src)
  {
    hide ReadFields, Decompress, Tail, FieldsRead, Overlay;
    var u := Unwind(st);
    UnwindConserves(st);
    var r := ReadFields(u.Top().src, LAYOUT);
    ReadFieldsConserves(u.Top().src, LAYOUT);
    SetTopConserves(u, r.rest);
    var v := u.SetTop(r.rest);
    TailTransitive(st.stack[0].src, u.stack[0].src, v.stack[0].src);
    if r.Ok? {
      var w := v.(header := ToHeader(r.value), count := r.value[12]);
      DecompressConserves(codecs, w);
      TailTransitive(st.stack[0].src, w.stack[0].src, Decompress(codecs, w).st.stack[0].src);
    }
  }

  /** Whatever the bytes, the connection's frame only advances, by exactly what is deducted from its size. */
  lemma ReadMessageConserves(codecs: Registry, st: State)
    requires st.stack != []
    ensures Tail(st.stack[0].src, ReadMessage(codecs, st).next.stack[0].src)
  {
    hide ReadRecord, OpenBatch, Tail;
    TailSteps(st.stack[0].src);
    OpenBatchConserves(codecs, st);
    var o := if st.count == 0 then OpenBatch(codecs, st) else Step(NoError, st);
    ReadRecordConserves(o.st.Top().src);
    SetTopConserves(o.st, ReadRecord(o.st.Top().src).rest);
  }

  /**
   After discard the connection is at the end of the response exactly when no
   decompressed frame is on top, or nothing of the response was left below it.
   */
  lemma DiscardAlignedIff(st: State)
    requires st.stack != [] && st.stack[0].src.remain <= |st.stack[0].src.data|
    ensures Tail(st.stack[0].src, Discard(st).stack[0].src)
    ensures Discard(st).stack[0].src.remain == 0 <==> |st.stack| == 1 || st.stack[0].src.remain == 0
  {
  }
}
