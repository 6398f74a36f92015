/**
 Reading back a run of format 2 record batches: every message, in order, at
 consecutive offsets, with every byte of the response accounted for.
 */
module RecordBatchProofs {
  import opened Collections
  import opened Wire
  import opened Codecs
  import opened RecordBatch
  import VarInt

  // ---------------------------------------------------------------------
  // What the writer can produce and the reader can hold
  // ---------------------------------------------------------------------

  ghost predicate Writable(baseTime: int, off: nat, m: Message) {
    && Small(m)
    && VarInt.InRange(m.time - baseTime)
    && |Body(m.time - baseTime, off, m)| < 0x8000_0000
  }

  /** Field widths hold, times are UnixNano values, and the codec is a registered inverse pair. */
  ghost predicate WellFormed(codecs: Registry, b: Batch) {
    && 1 <= |b.msgs| < 0x8000_0000
    && 0 <= b.base && b.base + |b.msgs| <= VarInt.TWO_63
    && Fits(4, b.crc)
    && (forall i :: 0 <= i < |b.msgs| ==> VarInt.IsInt64(b.msgs[i].time) && Writable(b.msgs[0].time, i, b.msgs[i]))
    && |Payload(b)| + 49 < 0x8000_0000
    && (b.codec.Some? ==> && 1 <= b.codec.value.code < 8
                          && Registered(codecs, b.codec.value) && Inverse(b.codec.value))
  }

  /** A compressed payload is peeked, so it must fit the read buffer of the connection. */
  ghost predicate Valid(codecs: Registry, capacity: nat, b: Batch) {
    WellFormed(codecs, b) && (b.codec.Some? ==> |Payload(b)| <= capacity)
  }

  ghost predicate AllValid(codecs: Registry, capacity: nat, bs: seq<Batch>)
    ensures AllValid(codecs, capacity, bs) ==> NonEmpty(bs)
  {
    forall i :: 0 <= i < |bs| ==> Valid(codecs, capacity, bs[i])
  }

  /** What a reader gets for message `j` of `b`: the timestamp delta is in nanoseconds. */
  function Expected(b: Batch, j: nat): Fetched
    requires j < |b.msgs|
  {
    var m := b.msgs[j];
    Fetched(b.base + j, Millis(b.msgs[0].time) + (m.time - b.msgs[0].time),
            m.key.Normal(), m.value.Normal(), NormalHeaders(m.headers))
  }

  function ExpectedFrom(b: Batch, j: nat): seq<Fetched>
    requires j <= |b.msgs|
    decreases |b.msgs| - j
  {
    if j == |b.msgs| then [] else [Expected(b, j)] + ExpectedFrom(b, j + 1)
  }

  function ExpectedAll(bs: seq<Batch>): seq<Fetched> {
    if bs == [] then [] else ExpectedFrom(bs[0], 0) + ExpectedAll(bs[1..])
  }

  // ---------------------------------------------------------------------
  // Reader states that hold a known rest of the response
  // ---------------------------------------------------------------------

  function Recs(b: Batch, j: nat): seq<byte>
    requires b.msgs != [] && j <= |b.msgs|
  {
    Records(b.msgs[0].time, j, b.msgs[j..])
  }

  /** Between two batches: what is left of the response, and of the stream behind it, is `tail`. */
  ghost predicate Between(st: State, tail: Src, capacity: nat) {
    st.stack != [] && st.count == 0 && Unwind(st).stack == [Frame(tail, capacity)]
  }

  /** In front of the j-th message of `b`, behind which `tail` is left. */
  ghost predicate Inside(st: State, b: Batch, j: nat, tail: Src, capacity: nat) {
    && j <= |b.msgs| && b.msgs != []
    && st.count == |b.msgs| - j
    && st.header == ToHeader(HeaderValues(b))
    && (b.codec.None? ==> st.stack == [Frame(Onto(Recs(b, j), tail), capacity)])
    && (b.codec.Some? ==>
          st.stack == [Frame(tail, capacity), Frame(Src(Recs(b, j), |Recs(b, j)|), DEFAULT_CAPACITY)])
  }

  /** Some bytes of a frame in front of the rest of it. */
  function Onto(bytes: seq<byte>, tail: Src): Src {
    Src(bytes + tail.data, |bytes| + tail.remain)
  }

  // ---------------------------------------------------------------------
  // One read
  // ---------------------------------------------------------------------

  lemma InsideEnds(st: State, b: Batch, tail: Src, capacity: nat)
    requires Inside(st, b, |b.msgs|, tail, capacity)
    ensures Between(st, tail, capacity)
  {
    hide HeaderValues;
    assert Recs(b, |b.msgs|) == [];
    assert [] + tail.data == tail.data;
  }

  lemma OneRecord(b: Batch, j: nat, rest: seq<byte>, k: nat)
    requires j < |b.msgs| < 0x8000_0000 && Writable(b.msgs[0].time, j, b.msgs[j])
    ensures ReadRecord(Src(Recs(b, j) + rest, |Recs(b, j)| + k))
         == Ok(Received(b.msgs[j].time - b.msgs[0].time, j, b.msgs[j]),
               Src(Recs(b, j + 1) + rest, |Recs(b, j + 1)| + k))
  {
    hide RecordBytes, Received, ReadRecord, Small, Body;
    var t0, m := b.msgs[0].time, b.msgs[j];
    var x, y := RecordBytes(m.time - t0, j, m), Recs(b, j + 1);
    assert b.msgs[j..][1..] == b.msgs[j + 1..];
    assert Recs(b, j) == x + y;
    Assoc(x, y, rest);
    ReadsRecord(m.time - t0, j, m, y + rest, |y| + k);
  }

  lemma NoWrap(codecs: Registry, b: Batch, j: nat)
    requires WellFormed(codecs, b) && j < |b.msgs|
    ensures Wrap64(b.base + j) == b.base + j
    ensures var t := Millis(b.msgs[0].time) + (b.msgs[j].time - b.msgs[0].time); Wrap64(t) == t
  {
    hide Payload, Body, Small, Fits;
    assert Writable(b.msgs[0].time, j, b.msgs[j]) && VarInt.IsInt64(b.msgs[0].time);
  }

  lemma InsideStep(codecs: Registry, st: State, b: Batch, j: nat, tail: Src, capacity: nat)
    requires Inside(st, b, j, tail, capacity) && j < |b.msgs| && Valid(codecs, capacity, b)
    ensures ReadMessage(codecs, st).Got?
    ensures ReadMessage(codecs, st).m == Expected(b, j)
    ensures Inside(ReadMessage(codecs, st).next, b, j + 1, tail, capacity)
  {
    hide ReadRecord, Recs, Payload, Writable, Millis, Wrap64, NormalHeaders, Fits;
    NoWrap(codecs, b, j);
    if b.codec.None? {
      OneRecord(b, j, tail.data, tail.remain);
    } else {
      OneRecord(b, j, [], 0);
      assert Recs(b, j) + [] == Recs(b, j) && Recs(b, j + 1) + [] == Recs(b, j + 1);
    }
  }

  lemma HeaderFits(codecs: Registry, b: Batch)
    requires WellFormed(codecs, b)
    ensures AllFit(LAYOUT, HeaderValues(b))
  {
    hide Payload, Writable;
    Widths();
    var v := HeaderValues(b);
    assert VarInt.IsInt64(b.msgs[0].time) && VarInt.IsInt64(b.msgs[|b.msgs| - 1].time);
    assert Fits(8, v[0]) && Fits(4, v[1]) && Fits(4, v[2]) && Fits(1, v[3]) && Fits(4, v[4]) && Fits(2, v[5]);
    assert Fits(4, v[6]) && Fits(8, v[7]) && Fits(8, v[8]) && Fits(8, v[9]) && Fits(2, v[10]) && Fits(4, v[11]);
    assert Fits(4, v[12]);
  }

  lemma SumAt(ws: seq<nat>, i: nat)
    requires i < |ws|
    ensures Sum(ws[i..]) == ws[i] + Sum(ws[i + 1..])
  {
    assert ws[i..][1..] == ws[i + 1..];
  }

  lemma {:induction false} SumFour(ws: seq<nat>, i: nat)
    requires i + 4 <= |ws|
    ensures Sum(ws[i..]) == ws[i] + ws[i + 1] + ws[i + 2] + ws[i + 3] + Sum(ws[i + 4..])
  {
    hide Sum;
    SumAt(ws, i);
    SumAt(ws, i + 1);
    SumAt(ws, i + 2);
    SumAt(ws, i + 3);
  }

  /** recordBatchHeaderSize. */
  lemma LayoutSum()
    ensures Sum(LAYOUT) == 61
  {
    assert Sum(LAYOUT[13..]) == 0 && LAYOUT[0..] == LAYOUT;
    hide Sum;
    SumFour(LAYOUT, 0);
    SumFour(LAYOUT, 4);
    SumFour(LAYOUT, 8);
    SumAt(LAYOUT, 12);
  }

  lemma ReadsHeader(codecs: Registry, b: Batch, rest: seq<byte>, k: nat)
    requires WellFormed(codecs, b)
    ensures |BatchBytes(b)| == 61 + |Payload(b)|
    ensures ReadFields(Src(BatchBytes(b) + rest, |BatchBytes(b)| + k), LAYOUT)
         == Ok(HeaderValues(b), Src(Payload(b) + rest, |Payload(b)| + k))
  {
    hide Fields, ReadFields, HeaderValues, Payload, Sum, AllFit;
    HeaderFits(codecs, b);
    LayoutSum();
    FieldsLength(LAYOUT, HeaderValues(b));
    Assoc(Fields(LAYOUT, HeaderValues(b)), Payload(b), rest);
    ReadsFields(LAYOUT, HeaderValues(b), Payload(b) + rest, |BatchBytes(b)| + k);
  }

  lemma Decompresses(codecs: Registry, st: State, b: Batch, tail: Src, capacity: nat)
    requires Valid(codecs, capacity, b)
    requires st.header == ToHeader(HeaderValues(b)) && st.count == |b.msgs|
    requires st.stack == [Frame(Onto(Payload(b), tail), capacity)]
    ensures Decompress(codecs, st).err == NoError
    ensures Inside(Decompress(codecs, st).st, b, 0, tail, capacity)
  {
    hide Records, Writable, Fits;
    assert b.msgs[0..] == b.msgs;
    assert (Payload(b) + tail.data)[..|Payload(b)|] == Payload(b);
    assert (Payload(b) + tail.data)[|Payload(b)|..] == tail.data;
    assert Wrap32(st.header.length - 49) == |Payload(b)|;
  }

  ghost function Opened(st: State, b: Batch, tail: Src): State
    requires st.stack != [] && b.msgs != []
  {
    Unwind(st).SetTop(Onto(Payload(b), tail)).(header := ToHeader(HeaderValues(b)), count := |b.msgs|)
  }

  lemma OpensHeader(codecs: Registry, st: State, b: Batch, tail: Src, capacity: nat)
    requires WellFormed(codecs, b) && Between(st, Onto(BatchBytes(b), tail), capacity)
    ensures OpenBatch(codecs, st) == Decompress(codecs, Opened(st, b, tail))
  {
    hide ReadFields, FieldsRead, Overlay, Decompress, BatchBytes, Payload, HeaderValues, WellFormed;
    CountPositive(codecs, b);
    ReadsHeader(codecs, b, tail.data, tail.remain);
    CountValue(b);
  }

  lemma Opens(codecs: Registry, st: State, b: Batch, tail: Src, capacity: nat)
    requires Valid(codecs, capacity, b) && Between(st, Onto(BatchBytes(b), tail), capacity)
    ensures OpenBatch(codecs, st).err == NoError
    ensures Inside(OpenBatch(codecs, st).st, b, 0, tail, capacity)
    ensures ReadMessage(codecs, st) == ReadMessage(codecs, OpenBatch(codecs, st).st)
  {
    hide Decompress, Payload, HeaderValues, OpenBatch, WellFormed, BatchBytes, NextRecord;
    CountPositive(codecs, b);
    OpensHeader(codecs, st, b, tail, capacity);
    Decompresses(codecs, Opened(st, b, tail), b, tail, capacity);
  }

  lemma CountPositive(codecs: Registry, b: Batch)
    requires WellFormed(codecs, b)
    ensures |b.msgs| > 0
  {
  }

  lemma ValidNonEmpty(codecs: Registry, capacity: nat, b: Batch)
    requires Valid(codecs, capacity, b)
    ensures b.msgs != []
  {
  }

  /** The whole family of compressed batches the reader cannot take: the payload does not fit the read buffer. */
  lemma CompressedReadsIff(codecs: Registry, st: State, b: Batch, tail: Src, capacity: nat)
    requires WellFormed(codecs, b) && b.codec.Some? && Between(st, Onto(BatchBytes(b), tail), capacity)
    ensures ReadMessage(codecs, st).Got? <==> |Payload(b)| <= capacity
    ensures ReadMessage(codecs, st).Failed? ==> ReadMessage(codecs, st).err == BufferFull
  {
    hide OpenBatch, Records, BatchBytes, Writable, Fits, NextRecord;
    OpensHeader(codecs, st, b, tail, capacity);
    var o := Opened(st, b, tail);
    assert Wrap32(o.header.length - 49) == |Payload(b)|;
    if |Payload(b)| <= capacity {
      Opens(codecs, st, b, tail, capacity);
      InsideStep(codecs, OpenBatch(codecs, st).st, b, 0, tail, capacity);
    }
  }

  lemma CountValue(b: Batch)
    requires b.msgs != []
    ensures HeaderValues(b)[12] == |b.msgs|
  {
  }

  /** At a batch boundary with nothing left, the reader reports a short read and has consumed the response exactly. */
  lemma Ends(codecs: Registry, st: State, rest: seq<byte>, capacity: nat)
    requires Between(st, Src(rest, 0), capacity)
    ensures ReadMessage(codecs, st).Failed? && ReadMessage(codecs, st).err == ShortRead
    ensures ReadMessage(codecs, st).next.stack == [Frame(Src(rest, 0), capacity)]
  {
    hide FieldsRead, Overlay;
    assert LAYOUT[0] == 8;
    assert ReadFields(Src(rest, 0), LAYOUT) == Fail(ShortRead, Src(rest, 0));
  }

  // ---------------------------------------------------------------------
  // Whole runs
  // ---------------------------------------------------------------------

  /** From `st` the messages `ms` are read one by one, then a short read leaves one of `ends`. */
  ghost predicate Serves(codecs: Registry, st: State, ms: seq<Fetched>, ends: iset<seq<Frame>>)
    decreases |ms|
  {
    && st.stack != []
    && match ReadMessage(codecs, st)
       case Failed(e, t) => ms == [] && e == ShortRead && t.stack in ends
       case Got(m, t) => ms != [] && m == ms[0] && Serves(codecs, t, ms[1..], ends)
  }

  /** What is served once the reader has come to `tail`. */
  ghost predicate ServesFrom(codecs: Registry, tail: Src, capacity: nat, ms: seq<Fetched>, ends: iset<seq<Frame>>) {
    forall t :: Between(t, tail, capacity) ==> Serves(codecs, t, ms, ends)
  }

  lemma {:induction false} ServesInside(codecs: Registry, st: State, b: Batch, j: nat, tail: Src, capacity: nat,
                                        ms: seq<Fetched>, ends: iset<seq<Frame>>)
    requires Inside(st, b, j, tail, capacity) && Valid(codecs, capacity, b)
    requires ServesFrom(codecs, tail, capacity, ms, ends)
    ensures Serves(codecs, st, ExpectedFrom(b, j) + ms, ends)
    decreases |b.msgs| - j
  {
    hide ReadMessage, Valid, HeaderValues, Recs, Expected;
    if j == |b.msgs| {
      InsideEnds(st, b, tail, capacity);
      assert [] + ms == ms;
    } else {
      InsideStep(codecs, st, b, j, tail, capacity);
      ServesInside(codecs, ReadMessage(codecs, st).next, b, j + 1, tail, capacity, ms, ends);
      var all := ExpectedFrom(b, j) + ms;
      assert all == [Expected(b, j)] + (ExpectedFrom(b, j + 1) + ms);
      assert all[1..] == ExpectedFrom(b, j + 1) + ms;
    }
  }

  /** A batch in front of what is served after it. */
  lemma ServesBatch(codecs: Registry, b: Batch, tail: Src, capacity: nat, ms: seq<Fetched>, ends: iset<seq<Frame>>)
    requires Valid(codecs, capacity, b) && ServesFrom(codecs, tail, capacity, ms, ends)
    ensures b.msgs != [] && ServesFrom(codecs, Onto(BatchBytes(b), tail), capacity, ExpectedFrom(b, 0) + ms, ends)
  {
    hide ReadMessage, Valid, HeaderValues, Recs, Expected, BatchBytes, ExpectedFrom, OpenBatch;
    ValidNonEmpty(codecs, capacity, b);
    forall t | Between(t, Onto(BatchBytes(b), tail), capacity)
      ensures Serves(codecs, t, ExpectedFrom(b, 0) + ms, ends)
    {
      Opens(codecs, t, b, tail, capacity);
      ServesInside(codecs, OpenBatch(codecs, t).st, b, 0, tail, capacity, ms, ends);
    }
  }

  lemma {:induction false} ServesBatches(codecs: Registry, bs: seq<Batch>, tail: Src, capacity: nat,
                                         ms: seq<Fetched>, ends: iset<seq<Frame>>)
    requires AllValid(codecs, capacity, bs) && ServesFrom(codecs, tail, capacity, ms, ends)
    ensures ServesFrom(codecs, Onto(BatchesBytes(bs), tail), capacity, ExpectedAll(bs) + ms, ends)
    decreases |bs|
  {
    hide Valid, BatchBytes, ExpectedFrom, ServesFrom;
    if bs == [] {
      assert [] + tail.data == tail.data && [] + ms == ms;
      assert Onto([], tail) == tail;
    } else {
      var b, more := bs[0], bs[1..];
      ServesBatches(codecs, more, tail, capacity, ms, ends);
      ServesBatch(codecs, b, Onto(BatchesBytes(more), tail), capacity, ExpectedAll(more) + ms, ends);
      Assoc(BatchBytes(b), BatchesBytes(more), tail.data);
      Assoc(ExpectedFrom(b, 0), ExpectedAll(more), ms);
      assert Onto(BatchBytes(b), Onto(BatchesBytes(more), tail)) == Onto(BatchesBytes(bs), tail);
    }
  }

  /** The end of a response that was read to its last byte. */
  function End(rest: seq<byte>, capacity: nat): iset<seq<Frame>> {
    iset{[Frame(Src(rest, 0), capacity)]}
  }

  lemma ServesEnd(codecs: Registry, rest: seq<byte>, capacity: nat)
    ensures ServesFrom(codecs, Src(rest, 0), capacity, [], End(rest, capacity))
  {
    hide ReadMessage;
    forall t | Between(t, Src(rest, 0), capacity)
      ensures Serves(codecs, t, [], End(rest, capacity))
    {
      Ends(codecs, t, rest, capacity);
    }
  }

  /** A reader at the start of a response that holds `bs`. */
  ghost function AtResponse(bs: seq<Batch>, rest: seq<byte>, capacity: nat, h: BatchHeader): (st: State)
    requires NonEmpty(bs)
    ensures st.stack != [] && Between(st, Src(BatchesBytes(bs) + rest, |BatchesBytes(bs)|), capacity)
  {
    hide BatchesBytes;
    State([Frame(Src(BatchesBytes(bs) + rest, |BatchesBytes(bs)|), capacity)], 0, h)
  }

  /**
   A response that holds a run of record batches, followed on the connection by
   anything, serves exactly the messages written, batch i at offsets base_i,
   base_i + 1, ..., then a short read; no byte of the response is left and none
   after it is touched.
   */
  lemma Served(codecs: Registry, bs: seq<Batch>, rest: seq<byte>, capacity: nat, h: BatchHeader)
    requires AllValid(codecs, capacity, bs)
    ensures Serves(codecs, AtResponse(bs, rest, capacity, h), ExpectedAll(bs), End(rest, capacity))
  {
    hide ExpectedAll, BatchesBytes, Valid, Serves;
    ServesEnd(codecs, rest, capacity);
    ServesBatches(codecs, bs, Src(rest, 0), capacity, [], End(rest, capacity));
    assert ExpectedAll(bs) + [] == ExpectedAll(bs);
  }

  datatype Run = Run(msgs: seq<Fetched>, err: Err, st: State)

  /** Reads until a read fails, at most `n` times. */
  function Drain(codecs: Registry, st: State, n: nat): (r: Run)
    requires st.stack != []
    ensures r.st.stack != []
    decreases n
  {
    if n == 0 then Run([], NoError, st)
    else match ReadMessage(codecs, st)
      case Failed(e, t) => Run([], e, t)
      case Got(m, t) =>
        var r := Drain(codecs, t, n - 1);
        Run([m] + r.msgs, r.err, r.st)
  }

  lemma {:induction false} ServesDrain(codecs: Registry, st: State, ms: seq<Fetched>, ends: iset<seq<Frame>>)
    requires Serves(codecs, st, ms, ends)
    ensures var run := Drain(codecs, st, |ms| + 1); run.msgs == ms && run.err == ShortRead && run.st.stack in ends
    decreases |ms|
  {
    hide ReadMessage;
    if ms != [] {
      ServesDrain(codecs, ReadMessage(codecs, st).next, ms[1..], ends);
    }
  }

  /** The same as one run of reads. */
  lemma ReadBack(codecs: Registry, bs: seq<Batch>, rest: seq<byte>, capacity: nat, h: BatchHeader)
    requires AllValid(codecs, capacity, bs)
    ensures var run := Drain(codecs, AtResponse(bs, rest, capacity, h), |ExpectedAll(bs)| + 1);
            run.msgs == ExpectedAll(bs) && run.err == ShortRead && run.st.stack == [Frame(Src(rest, 0), capacity)]
  {
    hide ExpectedAll, BatchesBytes, Valid, Drain, Serves;
    Served(codecs, bs, rest, capacity, h);
    ServesDrain(codecs, AtResponse(bs, rest, capacity, h), ExpectedAll(bs), End(rest, capacity));
  }

  const NANOS_PER_MILLI: int := 1_000_000

  /**
   Deltas are written in nanoseconds and added to milliseconds: a timestamp
   survives exactly when the delta is zero, or one nanosecond over a
   millisecond boundary.
   */
  lemma TimestampSurvivesIff(b: Batch, j: nat)
    requires j < |b.msgs|
    ensures var t0, t := b.msgs[0].time, b.msgs[j].time;
            Expected(b, j).timestamp == Millis(t) <==>
              || t == t0
              || (t == t0 + 1 && if t0 >= 0 then t % NANOS_PER_MILLI == 0 else t0 % NANOS_PER_MILLI == 0)
              || (t == t0 - 1 && if t0 > 0 then t0 % NANOS_PER_MILLI == 0 else t % NANOS_PER_MILLI == 0)
  {
    hide NormalHeaders;
  }

  // ---------------------------------------------------------------------
  // Discarding in the middle
  // ---------------------------------------------------------------------

  /** The reader after `k` reads. */
  function After(codecs: Registry, st: State, k: nat): (t: State)
    requires st.stack != []
    ensures t.stack != []
    decreases k
  {
    if k == 0 then st else After(codecs, ReadMessage(codecs, st).next, k - 1)
  }

  /** The batch that holds the k-th message, counting from one. */
  function BatchOf(bs: seq<Batch>, k: nat): nat
    decreases |bs|
  {
    if bs == [] || k <= |bs[0].msgs| then 0 else 1 + BatchOf(bs[1..], k - |bs[0].msgs|)
  }

  function Total(bs: seq<Batch>): nat {
    if bs == [] then 0 else |bs[0].msgs| + Total(bs[1..])
  }

  lemma {:induction false} ReadInside(codecs: Registry, st: State, b: Batch, j: nat, tail: Src, capacity: nat, k: nat)
    requires Inside(st, b, j, tail, capacity) && Valid(codecs, capacity, b) && j + k <= |b.msgs|
    ensures Inside(After(codecs, st, k), b, j + k, tail, capacity)
    decreases k
  {
    hide ReadMessage, Valid, HeaderValues, Recs, Expected, Inside;
    if k > 0 {
      InsideState(st, b, j, tail, capacity);
      InsideStep(codecs, st, b, j, tail, capacity);
      ReadInside(codecs, ReadMessage(codecs, st).next, b, j + 1, tail, capacity, k - 1);
    }
  }

  lemma InsideState(st: State, b: Batch, j: nat, tail: Src, capacity: nat)
    requires Inside(st, b, j, tail, capacity)
    ensures st.stack != []
  {
  }

  /** Opening a batch and then reading is reading. */
  lemma AfterOpens(codecs: Registry, st: State, o: State, k: nat)
    requires st.stack != [] && o.stack != [] && k > 0 && ReadMessage(codecs, st) == ReadMessage(codecs, o)
    ensures After(codecs, st, k) == After(codecs, o, k)
  {
    hide ReadMessage;
  }

  lemma {:induction false} AfterBatch(codecs: Registry, st: State, k: nat, n: nat)
    requires st.stack != []
    ensures After(codecs, st, k + n) == After(codecs, After(codecs, st, k), n)
    decreases k
  {
    hide ReadMessage;
    if k > 0 {
      AfterBatch(codecs, ReadMessage(codecs, st).next, k - 1, n);
    }
  }

  lemma WithinFirst(codecs: Registry, st: State, b: Batch, tail: Src, capacity: nat, k: nat)
    requires Valid(codecs, capacity, b) && Between(st, Onto(BatchBytes(b), tail), capacity) && 0 < k <= |b.msgs|
    ensures Inside(After(codecs, st, k), b, k, tail, capacity)
  {
    hide Valid, BatchBytes, ReadMessage, OpenBatch, Inside, After;
    Opens(codecs, st, b, tail, capacity);
    AfterOpens(codecs, st, OpenBatch(codecs, st).st, k);
    ReadInside(codecs, OpenBatch(codecs, st).st, b, 0, tail, capacity, k);
  }

  lemma PastFirst(codecs: Registry, st: State, b: Batch, tail: Src, capacity: nat, k: nat)
    requires Valid(codecs, capacity, b) && Between(st, Onto(BatchBytes(b), tail), capacity) && |b.msgs| <= k
    ensures var t := After(codecs, st, |b.msgs|);
            Between(t, tail, capacity) && After(codecs, st, k) == After(codecs, t, k - |b.msgs|)
  {
    hide Valid, BatchBytes, ReadMessage, OpenBatch, Inside, After;
    ValidNonEmpty(codecs, capacity, b);
    WithinFirst(codecs, st, b, tail, capacity, |b.msgs|);
    InsideEnds(After(codecs, st, |b.msgs|), b, tail, capacity);
    AfterBatch(codecs, st, |b.msgs|, k - |b.msgs|);
  }

  /** Where the k-th message is. */
  ghost predicate Located(bs: seq<Batch>, k: nat, i: nat) {
    i < |bs| && Total(bs[..i]) < k <= Total(bs[..i]) + |bs[i].msgs|
  }

  /** After k reads the reader is inside the batch with the k-th message. */
  lemma {:induction false} ReadInto(codecs: Registry, st: State, bs: seq<Batch>, rest: Src, capacity: nat, k: nat)
    requires AllValid(codecs, capacity, bs) && Between(st, Onto(BatchesBytes(bs), rest), capacity) && 0 < k <= Total(bs)
    ensures var i := BatchOf(bs, k);
            && Located(bs, k, i) && NonEmpty(bs[i + 1..])
            && Inside(After(codecs, st, k), bs[i], k - Total(bs[..i]), Onto(BatchesBytes(bs[i + 1..]), rest), capacity)
    decreases |bs|
  {
    hide Valid, BatchBytes, Inside, After;
    var b, more := bs[0], bs[1..];
    var tail := Onto(BatchesBytes(more), rest);
    Assoc(BatchBytes(b), BatchesBytes(more), rest.data);
    assert Onto(BatchesBytes(bs), rest) == Onto(BatchBytes(b), tail);
    if k <= |b.msgs| {
      assert bs[..0] == [];
      WithinFirst(codecs, st, b, tail, capacity, k);
    } else {
      var n := |b.msgs|;
      PastFirst(codecs, st, b, tail, capacity, k);
      ReadInto(codecs, After(codecs, st, n), more, rest, capacity, k - n);
      var i := BatchOf(more, k - n);
      assert bs[..i + 1] == [b] + more[..i] && bs[i + 2..] == more[i + 1..];
      TotalFirst(b, more[..i]);
    }
  }

  lemma TotalFirst(b: Batch, more: seq<Batch>)
    ensures Total([b] + more) == |b.msgs| + Total(more)
  {
    assert ([b] + more)[1..] == more;
  }

  lemma {:induction false} FromIs(b: Batch, j: nat)
    requires j <= |b.msgs|
    ensures |ExpectedFrom(b, j)| == |b.msgs| - j
    decreases |b.msgs| - j
  {
    hide Expected;
    if j < |b.msgs| {
      FromIs(b, j + 1);
    }
  }

  lemma {:induction false} TotalIs(bs: seq<Batch>)
    ensures |ExpectedAll(bs)| == Total(bs)
    decreases |bs|
  {
    hide ExpectedFrom;
    if bs != [] {
      FromIs(bs[0], 0);
      TotalIs(bs[1..]);
    }
  }

  /** What is left on the connection after k reads and a discard. */
  function Left(codecs: Registry, st: State, k: nat): Src
    requires st.stack != []
  {
    Discard(After(codecs, st, k)).stack[0].src
  }

  /** After k reads and a discard the batches `more` of the response are still to come. */
  ghost predicate LeavesBehind(codecs: Registry, bs: seq<Batch>, rest: seq<byte>, capacity: nat, h: BatchHeader, k: nat,
                               more: seq<Batch>)
    requires NonEmpty(bs) && NonEmpty(more)
  {
    Left(codecs, AtResponse(bs, rest, capacity, h), k) == Src(BatchesBytes(more) + rest, |BatchesBytes(more)|)
  }

  /**
   A response of any batches, from which k messages were read: discard leaves
   nothing of the response exactly when the batch read last is plain or the last
   one, and else all the batches behind it.
   */
  lemma DiscardLeavesIff(codecs: Registry, bs: seq<Batch>, rest: seq<byte>, capacity: nat, h: BatchHeader, k: nat)
    requires AllValid(codecs, capacity, bs) && 0 < k <= Total(bs)
    ensures var i := BatchOf(bs, k);
            && Located(bs, k, i) && NonEmpty(bs[i + 1..])
            && LeavesBehind(codecs, bs, rest, capacity, h, k, if bs[i].codec.None? then [] else bs[i + 1..])
    ensures Left(codecs, AtResponse(bs, rest, capacity, h), k).remain == 0
            <==> bs[BatchOf(bs, k)].codec.None? || BatchOf(bs, k) + 1 == |bs|
  {
    hide Valid, BatchesBytes, After, Recs, HeaderValues, Wire.DiscardN, Total, BatchOf;
    var st, i := AtResponse(bs, rest, capacity, h), BatchOf(bs, k);
    ReadInto(codecs, st, bs, Src(rest, 0), capacity, k);
    var more := BatchesBytes(bs[i + 1..]);
    NoBatches();
    assert [] + rest == rest;
    if i + 1 == |bs| {
      assert bs[i + 1..] == [];
    } else {
      SomeBytes(bs[i + 1..]);
    }
    DiscardsFrame(Recs(bs[i], k - Total(bs[..i])), Src(more + rest, |more|));
    assert (more + rest)[|more|..] == rest;
  }

  lemma NoBatches()
    ensures BatchesBytes([]) == []
  {
  }

  lemma DiscardsFrame(bytes: seq<byte>, tail: Src)
    requires tail.remain <= |tail.data|
    ensures var s := Onto(bytes, tail); Wire.DiscardN(s, s.remain).rest == Src(tail.data[tail.remain..], 0)
  {
  }

  // ---------------------------------------------------------------------
  // Batches that do not come through
  // ---------------------------------------------------------------------

  /** A batch of one message with a value of `n` bytes. */
  function Sample(n: nat, codec: Option<Codec>): (b: Batch)
    ensures b.msgs != []
  {
    Batch(0, codec, 0, [Message(0, Nil, Bytes(seq(n, _ => 0)), [])])
  }

  lemma SampleSize(n: nat)
    requires n < 0x1_0000
    ensures var m := Sample(n, None).msgs[0]; n < |Body(0, 0, m)| < n + 100
    ensures n < |Records(0, 0, Sample(n, None).msgs)| < n + 200
  {
    hide VarInt.Encode;
    var m := Sample(n, None).msgs[0];
    var body := Body(0, 0, m);
    VarInt.LengthBound(0);
    VarInt.LengthBound(n);
    VarInt.LengthBound(|m.headers|);
    assert |body| == 1 + |VarInt.Encode(0)| + |VarInt.Encode(0)| + |VarInt.Encode(0)| + |VarInt.Encode(n)| + n
                     + |VarInt.Encode(0)|;
    VarInt.LengthBound(|body|);
    var msgs := Sample(n, None).msgs;
    assert msgs[1..] == [];
    assert Records(0, 0, msgs) == RecordBytes(0, 0, m) + [];
  }

  lemma SampleWellFormed(n: nat)
    requires n < 0x1_0000
    ensures WellFormed(CODECS, Sample(n, Some(Identity()))) && n < |Payload(Sample(n, Some(Identity())))|
  {
    hide Body, Records;
    SampleSize(n);
    Widths();
    assert Inverse(Identity());
  }

  /** A compressed batch of some four thousand bytes cannot be read through a buffer of the usual size. */
  lemma TooLargeToPeek(rest: seq<byte>, h: BatchHeader)
    ensures var st := AtResponse([Sample(4096, Some(Identity()))], rest, DEFAULT_CAPACITY, h);
            ReadMessage(CODECS, st).Failed? && ReadMessage(CODECS, st).err == BufferFull
  {
    hide BatchBytes, Payload, ReadMessage, Records, WellFormed, Sample, AtResponse;
    var b := Sample(4096, Some(Identity()));
    SampleWellFormed(4096);
    OneBatch(b);
    assert b.codec.Some? by { SampleCodec(4096, Some(Identity())); }
    CompressedReadsIff(CODECS, AtResponse([b], rest, DEFAULT_CAPACITY, h), b, Src(rest, 0), DEFAULT_CAPACITY);
  }

  lemma OneBatch(b: Batch)
    requires b.msgs != []
    ensures NonEmpty([b]) && BatchesBytes([b]) == BatchBytes(b)
  {
    hide BatchBytes;
    assert [b][1..] == [];
    assert BatchBytes(b) + [] == BatchBytes(b);
  }

  lemma SampleCodec(n: nat, codec: Option<Codec>)
    ensures Sample(n, codec).codec == codec
  {
  }

  lemma SomeBytes(more: seq<Batch>)
    requires NonEmpty(more) && more != []
    ensures |BatchesBytes(more)| > 0
  {
    hide Payload, Sum;
    FieldsLength(LAYOUT, HeaderValues(more[0]));
    LayoutSum();
  }

  /** Such a response: two compressed batches, of which the second is left. */
  lemma DiscardLeavesBatch(rest: seq<byte>, h: BatchHeader)
    ensures var b := Sample(10, Some(Identity()));
            LeavesBehind(CODECS, [b, b], rest, DEFAULT_CAPACITY, h, 1, [b]) && |BatchesBytes([b])| > 0
  {
    hide BatchesBytes, Records, WellFormed, LeavesBehind, Left;
    var b := Sample(10, Some(Identity()));
    SampleWellFormed(10);
    SampleSize(10);
    assert [b, b][1..] == [b];
    SomeBytes([b]);
    DiscardLeavesIff(CODECS, [b, b], rest, DEFAULT_CAPACITY, h, 1);
  }

  /** Two messages one second apart: the second is read as a thousand million milliseconds after the first. */
  lemma SecondBecomesDays(m: Message)
    ensures var b := Batch(0, None, 0, [m.(time := 0), m.(time := 1_000_000_000)]);
            Expected(b, 1).timestamp == 1_000_000_000 && Millis(b.msgs[1].time) == 1_000
  {
  }

  // ---------------------------------------------------------------------
  // The header by byte position
  // ---------------------------------------------------------------------

  /** Where the field behind `k` others starts. */
  function Start(widths: seq<nat>, k: nat): nat
    requires k <= |widths|
  {
    if k == 0 then 0 else Start(widths, k - 1) + widths[k - 1]
  }

  lemma {:induction false} StartFrom(widths: seq<nat>, k: nat)
    requires 0 < k <= |widths|
    ensures Start(widths, k) == widths[0] + Start(widths[1..], k - 1)
  {
    if k > 1 {
      StartFrom(widths, k - 1);
    }
  }

  lemma {:induction false} FieldAt(widths: seq<nat>, values: seq<int>, rest: seq<byte>, k: nat)
    requires |widths| == |values| && k < |widths|
    ensures var at, bytes := Start(widths, k), Fields(widths, values) + rest;
            at + widths[k] <= |bytes| && bytes[at..at + widths[k]] == BigEndian(widths[k], values[k])
  {
    hide BigEndian;
    var first, tail := BigEndian(widths[0], values[0]), Fields(widths[1..], values[1..]);
    assert Fields(widths, values) + rest == first + (tail + rest);
    if k > 0 {
      FieldAt(widths[1..], values[1..], rest, k - 1);
      StartFrom(widths, k);
    }
  }

  /** The bytes of a batch from one field of its header to the next. */
  function Slot(b: Batch, from: nat, to: nat): seq<byte>
    requires b.msgs != []
  {
    if from <= to <= |BatchBytes(b)| then BatchBytes(b)[from..to] else []
  }

  lemma SlotIs(b: Batch, k: nat, from: nat, width: nat, value: int)
    requires b.msgs != [] && k < |LAYOUT|
    requires Start(LAYOUT, k) == from && LAYOUT[k] == width && HeaderValues(b)[k] == value
    ensures Slot(b, from, from + width) == BigEndian(width, value)
  {
    hide Payload, HeaderValues, BigEndian, Fields, Start;
    FieldAt(LAYOUT, HeaderValues(b), Payload(b), k);
  }

  lemma Starts()
    ensures Start(LAYOUT, 0) == 0 && Start(LAYOUT, 1) == 8 && Start(LAYOUT, 2) == 12 && Start(LAYOUT, 3) == 16
    ensures Start(LAYOUT, 4) == 17 && Start(LAYOUT, 5) == 21 && Start(LAYOUT, 6) == 23 && Start(LAYOUT, 7) == 27
    ensures Start(LAYOUT, 8) == 35 && Start(LAYOUT, 9) == 43 && Start(LAYOUT, 10) == 51 && Start(LAYOUT, 11) == 53
    ensures Start(LAYOUT, 12) == 57
  {
    assert Start(LAYOUT, 1) == 8;
    assert Start(LAYOUT, 2) == 12;
    assert Start(LAYOUT, 3) == 16;
    assert Start(LAYOUT, 4) == 17;
    assert Start(LAYOUT, 5) == 21;
    assert Start(LAYOUT, 6) == 23;
    assert Start(LAYOUT, 7) == 27;
    assert Start(LAYOUT, 8) == 35;
    assert Start(LAYOUT, 9) == 43;
    assert Start(LAYOUT, 10) == 51;
    assert Start(LAYOUT, 11) == 53;
  }

  lemma {:induction false} RecordsAppend(baseTime: int, first: nat, msgs: seq<Message>, m: Message)
    ensures Records(baseTime, first, msgs + [m])
         == Records(baseTime, first, msgs) + RecordBytes(m.time - baseTime, first + |msgs|, m)
    decreases |msgs|
  {
    hide RecordBytes;
    var all := msgs + [m];
    if msgs == [] {
      assert all == [m] && [m][1..] == [];
      assert Records(baseTime, first, [m]) == RecordBytes(m.time - baseTime, first, m) + [];
    } else {
      RecordsAppend(baseTime, first + 1, msgs[1..], m);
      assert all[1..] == msgs[1..] + [m] && all[0] == msgs[0];
      Assoc(RecordBytes(msgs[0].time - baseTime, first, msgs[0]), Records(baseTime, first + 1, msgs[1..]),
            RecordBytes(m.time - baseTime, first + |msgs|, m));
    }
  }

  /**
   What a reader finds in the header: how many bytes follow the length, the
   format, the codec, the offset delta and the time of the last record, the time
   of the first, no producer, and how many records there are.
   */
  lemma HeaderSays(b: Batch) returns (delta: nat)
    requires b.msgs != []
    ensures var n, base := |b.msgs| - 1, b.msgs[0].time;
            && Slot(b, 0, 8) == Int64(b.base) && Slot(b, 8, 12) == Int32(|BatchBytes(b)| - 12)
            && Slot(b, 12, 16) == Int32(-1) && Slot(b, 16, 17) == Int8(2) && Slot(b, 17, 21) == Int32(b.crc)
            && Slot(b, 21, 23) == Int16(if b.codec.None? then 0 else b.codec.value.code)
            && Slot(b, 23, 27) == Int32(delta)
            && Records(base, 0, b.msgs)
               == Records(base, 0, b.msgs[..n]) + RecordBytes(b.msgs[n].time - base, delta, b.msgs[n])
            && Slot(b, 27, 35) == Int64(Millis(base)) && Slot(b, 35, 43) == Int64(Millis(b.msgs[n].time))
            && Slot(b, 43, 51) == Int64(-1) && Slot(b, 51, 53) == Int16(-1) && Slot(b, 53, 57) == Int32(-1)
            && Slot(b, 57, 61) == Int32(|b.msgs|)
  {
    hide Payload, Records, RecordBytes, Slot, HeaderValues, BatchBytes, BigEndian;
    var n := |b.msgs| - 1;
    delta := n;
    FrontSays(b);
    BackSays(b);
    RecordsAppend(b.msgs[0].time, 0, b.msgs[..n], b.msgs[n]);
    assert b.msgs == b.msgs[..n] + [b.msgs[n]];
  }

  lemma FrontSays(b: Batch)
    requires b.msgs != []
    ensures Slot(b, 0, 8) == Int64(b.base) && Slot(b, 8, 12) == Int32(|BatchBytes(b)| - 12)
    ensures Slot(b, 12, 16) == Int32(-1) && Slot(b, 16, 17) == Int8(2) && Slot(b, 17, 21) == Int32(b.crc)
  {
    hide Payload, Fields, Slot, Start, BigEndian, Sum;
    Starts();
    LayoutSum();
    FieldsLength(LAYOUT, HeaderValues(b));
    SlotIs(b, 0, 0, 8, b.base);
    SlotIs(b, 1, 8, 4, |BatchBytes(b)| - 12);
    SlotIs(b, 2, 12, 4, -1);
    SlotIs(b, 3, 16, 1, 2);
    SlotIs(b, 4, 17, 4, b.crc);
  }

  lemma BackSays(b: Batch)
    requires b.msgs != []
    ensures Slot(b, 21, 23) == Int16(if b.codec.None? then 0 else b.codec.value.code)
    ensures Slot(b, 23, 27) == Int32(|b.msgs| - 1)
    ensures Slot(b, 27, 35) == Int64(Millis(b.msgs[0].time))
    ensures Slot(b, 35, 43) == Int64(Millis(b.msgs[|b.msgs| - 1].time))
    ensures Slot(b, 43, 51) == Int64(-1) && Slot(b, 51, 53) == Int16(-1) && Slot(b, 53, 57) == Int32(-1)
    ensures Slot(b, 57, 61) == Int32(|b.msgs|)
  {
    hide Payload, Fields, Slot, Start, BigEndian, Millis, BatchBytes;
    Starts();
    SlotIs(b, 5, 21, 2, if b.codec.None? then 0 else b.codec.value.code);
    SlotIs(b, 6, 23, 4, |b.msgs| - 1);
    SlotIs(b, 7, 27, 8, Millis(b.msgs[0].time));
    SlotIs(b, 8, 35, 8, Millis(b.msgs[|b.msgs| - 1].time));
    SlotIs(b, 9, 43, 8, -1);
    SlotIs(b, 10, 51, 2, -1);
    SlotIs(b, 11, 53, 4, -1);
    SlotIs(b, 12, 57, 4, |b.msgs|);
  }
}
