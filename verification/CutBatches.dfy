/**
 Record batches cut off in the middle (message.go, batch.go): the records that
 came in full are delivered, also those of a plain batch whose end is missing.
 */
module CutBatches {
  import opened Wire
  import opened Codecs
  import opened RecordBatch
  import opened RecordBatchProofs
  import opened Truncation
  import VarInt

  // ---------------------------------------------------------------------
  // The readers of a record
  // ---------------------------------------------------------------------

  lemma {:induction false} FollowUvar(s: Src, full: Src, l: nat, acc: nat)
    requires Cut(s, full)
    ensures Follows(VarInt.ReadUvar(s, l, acc), VarInt.ReadUvar(full, l, acc))
    decreases s.remain
  {
    hide VarInt.ShiftedBits;
    if s.remain > 0 {
      CutDrop(s, full, 1);
      assert s.data[..1][0] == full.data[..1][0];
      if s.data[0] >= 128 {
        FollowUvar(s.Drop(1), full.Drop(1), l + 1, acc + VarInt.ShiftedBits(s.data[0], l));
      }
    }
  }

  lemma FollowVarInt(s: Src, full: Src)
    requires Cut(s, full)
    ensures Follows(VarInt.Read(s), VarInt.Read(full))
  {
    hide VarInt.ReadUvar, Wrap64, VarInt.UnZigZag, Cut;
    FollowUvar(s, full, 0, 0);
  }

  lemma FollowSized(s: Src, full: Src)
    requires Cut(s, full)
    ensures Follows(ReadSized(s), ReadSized(full))
  {
    hide VarInt.Read, ReadNewBytes, Cut;
    FollowVarInt(s, full);
    var a, b := VarInt.Read(s), VarInt.Read(full);
    if a.Ok? && b.Ok? {
      FollowNewBytes(a.rest, b.rest, a.value);
    }
  }

  lemma FollowPair(s: Src, full: Src)
    requires Cut(s, full)
    ensures Follows(ReadHeader(s), ReadHeader(full))
    ensures Follows(RecordBatch.ReadKeyValue(s), RecordBatch.ReadKeyValue(full))
  {
    hide ReadSized, Cut;
    FollowSized(s, full);
    var a, b := ReadSized(s), ReadSized(full);
    if a.Ok? && b.Ok? {
      FollowSized(a.rest, b.rest);
    }
  }

  lemma {:induction false} FollowHeaders(s: Src, full: Src, n: nat)
    requires Cut(s, full)
    ensures Follows(ReadHeaders(s, n), ReadHeaders(full, n))
    decreases n
  {
    hide ReadHeader, Cut;
    if n > 0 {
      FollowPair(s, full);
      var a, b := ReadHeader(s), ReadHeader(full);
      if a.Ok? && b.Ok? {
        FollowHeaders(a.rest, b.rest, n - 1);
      }
    }
  }

  lemma FollowHeaderList(s: Src, full: Src)
    requires Cut(s, full)
    ensures Follows(ReadHeaderList(s), ReadHeaderList(full))
  {
    hide VarInt.Read, ReadHeaders, Cut;
    FollowVarInt(s, full);
    var a, b := VarInt.Read(s), VarInt.Read(full);
    if a.Ok? && b.Ok? && a.value >= 0 {
      FollowHeaders(a.rest, b.rest, a.value);
    }
  }

  lemma FollowDeltas(s: Src, full: Src)
    requires Cut(s, full)
    ensures Follows(ReadDeltas(s), ReadDeltas(full))
  {
    hide VarInt.Read, ReadInt, Cut;
    FollowVarInt(s, full);
    var a, a' := VarInt.Read(s), VarInt.Read(full);
    if a.Ok? && a'.Ok? {
      FollowInt(a.rest, a'.rest, 1);
      var b, b' := ReadInt(a.rest, 1), ReadInt(a'.rest, 1);
      if b.Ok? && b'.Ok? {
        FollowVarInt(b.rest, b'.rest);
        var c, c' := VarInt.Read(b.rest), VarInt.Read(b'.rest);
        if c.Ok? && c'.Ok? {
          FollowVarInt(c.rest, c'.rest);
        }
      }
    }
  }

  lemma FollowRecord(s: Src, full: Src)
    requires Cut(s, full)
    ensures Follows(ReadRecord(s), ReadRecord(full))
  {
    hide ReadDeltas, RecordBatch.ReadKeyValue, ReadHeaderList, Cut;
    FollowDeltas(s, full);
    var a, a' := ReadDeltas(s), ReadDeltas(full);
    if a.Ok? && a'.Ok? {
      FollowPair(a.rest, a'.rest);
      var b, b' := RecordBatch.ReadKeyValue(a.rest), RecordBatch.ReadKeyValue(a'.rest);
      if b.Ok? && b'.Ok? {
        FollowHeaderList(b.rest, b'.rest);
      }
    }
  }

  lemma {:induction false} FollowFields(s: Src, full: Src, widths: seq<nat>)
    requires Cut(s, full)
    ensures Follows(ReadFields(s, widths), ReadFields(full, widths))
    decreases |widths|
  {
    hide ReadInt, Cut;
    if widths != [] {
      FollowInt(s, full, widths[0]);
      var a, b := ReadInt(s, widths[0]), ReadInt(full, widths[0]);
      if a.Ok? && b.Ok? {
        FollowFields(a.rest, b.rest, widths[1..]);
      }
    }
  }

  // ---------------------------------------------------------------------
  // A batch of which only the first bytes came
  // ---------------------------------------------------------------------

  /** Where a short read leaves the connection: discarding ends exactly behind the response. */
  ghost function Cutoff(rest: seq<byte>, capacity: nat): iset<seq<Frame>> {
    iset fs: seq<Frame> | && |fs| == 1 && fs[0].capacity == capacity
                          && fs[0].src.remain <= |fs[0].src.data| && fs[0].src.data[fs[0].src.remain..] == rest
  }

  lemma TailCutoff(bytes: seq<byte>, rest: seq<byte>, s: Src, capacity: nat)
    requires Tail(Src(bytes + rest, |bytes|), s)
    ensures [Frame(s, capacity)] in Cutoff(rest, capacity)
  {
    assert s.data == (bytes + rest)[|bytes| - s.remain..];
    assert s.data[s.remain..] == rest;
  }

  /** How many records from the j-th on are among the first `n` bytes. */
  function CompleteRecords(b: Batch, j: nat, n: nat): (k: nat)
    requires b.msgs != [] && j <= |b.msgs|
    ensures j + k <= |b.msgs|
    decreases |b.msgs| - j
  {
    if j == |b.msgs| then 0
    else
      var size := |RecordBytes(b.msgs[j].time - b.msgs[0].time, j, b.msgs[j])|;
      if n < size then 0 else 1 + CompleteRecords(b, j + 1, n - size)
  }

  /** The messages from the j-th on, k of them. */
  function Stretch(b: Batch, j: nat, k: nat): seq<Fetched>
    requires j + k <= |b.msgs|
    decreases k
  {
    if k == 0 then [] else [Expected(b, j)] + Stretch(b, j + 1, k - 1)
  }

  /** In front of the j-th record of a plain batch, of whose records only `n` bytes more came. */
  ghost predicate InsideCut(st: State, b: Batch, j: nat, n: nat, rest: seq<byte>, capacity: nat) {
    && b.msgs != [] && j < |b.msgs| && n < |Recs(b, j)|
    && st.count == |b.msgs| - j && st.header == ToHeader(HeaderValues(b))
    && st.stack == [Frame(Src(Recs(b, j)[..n] + rest, n), capacity)]
  }

  /** One record, and what follows it. */
  lemma RecsSplit(b: Batch, j: nat)
    requires b.msgs != [] && j < |b.msgs|
    ensures Recs(b, j) == RecordBytes(b.msgs[j].time - b.msgs[0].time, j, b.msgs[j]) + Recs(b, j + 1)
    ensures j + 1 == |b.msgs| ==> Recs(b, j + 1) == []
  {
    hide RecordBytes;
    assert b.msgs[j..][1..] == b.msgs[j + 1..];
  }

  lemma CutRecord(codecs: Registry, st: State, b: Batch, j: nat, n: nat, rest: seq<byte>, capacity: nat)
    requires InsideCut(st, b, j, n, rest, capacity) && WellFormed(codecs, b)
    requires n < |RecordBytes(b.msgs[j].time - b.msgs[0].time, j, b.msgs[j])|
    ensures ReadMessage(codecs, st).Failed? && ReadMessage(codecs, st).err == ShortRead
    ensures ReadMessage(codecs, st).next.stack in Cutoff(rest, capacity)
  {
    hide RecordBytes, ReadRecord, HeaderValues, Recs, Small, Body, Cut, Tail;
    var x := RecordBytes(b.msgs[j].time - b.msgs[0].time, j, b.msgs[j]);
    var s := Src(Recs(b, j)[..n] + rest, n);
    RecsSplit(b, j);
    assert Recs(b, j)[..n] == x[..n];
    CutPrefix(x, n, rest);
    assert Writable(b.msgs[0].time, j, b.msgs[j]);
    assert x + [] == x;
    ReadsRecord(b.msgs[j].time - b.msgs[0].time, j, b.msgs[j], [], 0);
    FollowRecord(s, Src(x, |x|));
    NothingCut(ReadRecord(s).rest);
    ReadRecordConserves(s);
    TailCutoff(x[..n], rest, ReadRecord(s).rest, capacity);
  }

  lemma NothingCut(s: Src)
    ensures !Cut(s, Src([], 0))
  {
  }

  lemma WholeRecord(codecs: Registry, st: State, b: Batch, j: nat, n: nat, rest: seq<byte>, capacity: nat)
    requires InsideCut(st, b, j, n, rest, capacity) && WellFormed(codecs, b)
    requires n >= |RecordBytes(b.msgs[j].time - b.msgs[0].time, j, b.msgs[j])|
    ensures var size := |RecordBytes(b.msgs[j].time - b.msgs[0].time, j, b.msgs[j])|;
            && ReadMessage(codecs, st).Got? && ReadMessage(codecs, st).m == Expected(b, j)
            && InsideCut(ReadMessage(codecs, st).next, b, j + 1, n - size, rest, capacity)
  {
    hide RecordBytes, ReadRecord, HeaderValues, Recs, Small, Body, Millis, Wrap64, NormalHeaders, Fits, Payload;
    var x := RecordBytes(b.msgs[j].time - b.msgs[0].time, j, b.msgs[j]);
    var k, y := n - |x|, Recs(b, j + 1);
    RecsSplit(b, j);
    assert Recs(b, j)[..n] == x + y[..k];
    Assoc(x, y[..k], rest);
    assert Writable(b.msgs[0].time, j, b.msgs[j]);
    ReadsRecord(b.msgs[j].time - b.msgs[0].time, j, b.msgs[j], y[..k] + rest, k);
    NoWrap(codecs, b, j);
    HeaderOf(b);
  }

  lemma HeaderOf(b: Batch)
    requires b.msgs != []
    ensures ToHeader(HeaderValues(b)).firstOffset == b.base
    ensures ToHeader(HeaderValues(b)).firstTimestamp == Millis(b.msgs[0].time)
  {
    hide Payload, Millis;
  }

  lemma {:induction false} ServesCut(codecs: Registry, st: State, b: Batch, j: nat, n: nat, rest: seq<byte>,
                                     capacity: nat)
    requires InsideCut(st, b, j, n, rest, capacity) && WellFormed(codecs, b)
    ensures Serves(codecs, st, Stretch(b, j, CompleteRecords(b, j, n)), Cutoff(rest, capacity))
    decreases |b.msgs| - j
  {
    hide RecordBytes, ReadMessage, HeaderValues, Recs, WellFormed, Expected, Cutoff;
    var size := |RecordBytes(b.msgs[j].time - b.msgs[0].time, j, b.msgs[j])|;
    if n < size {
      CutRecord(codecs, st, b, j, n, rest, capacity);
    } else {
      WholeRecord(codecs, st, b, j, n, rest, capacity);
      ServesCut(codecs, ReadMessage(codecs, st).next, b, j + 1, n - size, rest, capacity);
      var more := Stretch(b, j + 1, CompleteRecords(b, j + 1, n - size));
      assert ([Expected(b, j)] + more)[1..] == more;
    }
  }

  /** The messages that the first `n` bytes of a batch give: none of a compressed one. */
  function Partly(b: Batch, n: nat): seq<Fetched>
    requires b.msgs != []
  {
    if b.codec.Some? || n < 61 then [] else Stretch(b, 0, CompleteRecords(b, 0, n - 61))
  }

  /** The header of the batch did not come in full. */
  lemma CutHeader(codecs: Registry, t: State, b: Batch, n: nat, rest: seq<byte>, capacity: nat)
    requires WellFormed(codecs, b) && n < 61 && n < |BatchBytes(b)|
    requires Between(t, Src(BatchBytes(b)[..n] + rest, n), capacity)
    ensures ReadMessage(codecs, t).Failed? && ReadMessage(codecs, t).err == ShortRead
    ensures ReadMessage(codecs, t).next.stack in Cutoff(rest, capacity)
  {
    hide Fields, ReadFields, FieldsRead, Overlay, HeaderValues, Payload, Sum, AllFit, Cut, Tail, WellFormed;
    CountPositive(codecs, b);
    var x := Fields(LAYOUT, HeaderValues(b));
    HeaderFits(codecs, b);
    LayoutSum();
    FieldsLength(LAYOUT, HeaderValues(b));
    var s := Src(BatchBytes(b)[..n] + rest, n);
    assert BatchBytes(b)[..n] == x[..n];
    CutPrefix(x, n, rest);
    assert x + [] == x;
    ReadsFields(LAYOUT, HeaderValues(b), [], 61);
    FollowFields(s, Src(x, 61), LAYOUT);
    NothingCut(ReadFields(s, LAYOUT).rest);
    ReadFieldsConserves(s, LAYOUT);
    TailCutoff(x[..n], rest, ReadFields(s, LAYOUT).rest, capacity);
  }

  /** The header came in full, the payload did not. */
  lemma CutPayload(codecs: Registry, t: State, b: Batch, n: nat, rest: seq<byte>, capacity: nat)
    requires WellFormed(codecs, b) && 61 <= n < |BatchBytes(b)|
    requires Between(t, Src(BatchBytes(b)[..n] + rest, n), capacity)
    ensures |Payload(b)| > n - 61
    ensures OpenBatch(codecs, t)
         == Decompress(codecs, Unwind(t).SetTop(Src(Payload(b)[..n - 61] + rest, n - 61))
                                        .(header := ToHeader(HeaderValues(b)), count := |b.msgs|))
  {
    hide Fields, ReadFields, FieldsRead, Overlay, HeaderValues, Payload, Sum, AllFit, WellFormed, Decompress;
    CountPositive(codecs, b);
    var x, k := Fields(LAYOUT, HeaderValues(b)), n - 61;
    HeaderFits(codecs, b);
    LayoutSum();
    FieldsLength(LAYOUT, HeaderValues(b));
    assert BatchBytes(b)[..n] == x + Payload(b)[..k];
    Assoc(x, Payload(b)[..k], rest);
    ReadsFields(LAYOUT, HeaderValues(b), Payload(b)[..k] + rest, n);
    CountValue(b);
  }

  lemma CutCompressed(codecs: Registry, t: State, b: Batch, n: nat, rest: seq<byte>, capacity: nat)
    requires WellFormed(codecs, b) && b.codec.Some? && 61 <= n < |BatchBytes(b)|
    requires Between(t, Src(BatchBytes(b)[..n] + rest, n), capacity)
    ensures ReadMessage(codecs, t).Failed? && ReadMessage(codecs, t).err == ShortRead
    ensures ReadMessage(codecs, t).next.stack in Cutoff(rest, capacity)
  {
    hide OpenBatch, BatchBytes, Records, Writable, Fits, NextRecord, Tail;
    CutPayload(codecs, t, b, n, rest, capacity);
    var k := n - 61;
    var o := Unwind(t).SetTop(Src(Payload(b)[..k] + rest, k)).(header := ToHeader(HeaderValues(b)), count := |b.msgs|);
    assert Wrap32(o.header.length - 49) == |Payload(b)|;
    TailSteps(Src(Payload(b)[..k] + rest, k));
    TailCutoff(Payload(b)[..k], rest, Src(Payload(b)[..k] + rest, k), capacity);
  }

  lemma CutPlain(codecs: Registry, t: State, b: Batch, n: nat, rest: seq<byte>, capacity: nat)
    requires WellFormed(codecs, b) && b.codec.None? && 61 <= n < |BatchBytes(b)|
    requires Between(t, Src(BatchBytes(b)[..n] + rest, n), capacity)
    ensures OpenBatch(codecs, t).err == NoError && InsideCut(OpenBatch(codecs, t).st, b, 0, n - 61, rest, capacity)
    ensures ReadMessage(codecs, t) == ReadMessage(codecs, OpenBatch(codecs, t).st)
  {
    hide OpenBatch, BatchBytes, Records, Writable, Fits, NextRecord;
    CutPayload(codecs, t, b, n, rest, capacity);
    assert b.msgs[0..] == b.msgs;
    assert ToHeader(HeaderValues(b)).attributes == 0;
  }

  lemma ServesPart(codecs: Registry, b: Batch, n: nat, rest: seq<byte>, capacity: nat)
    requires Valid(codecs, capacity, b) && n < |BatchBytes(b)|
    ensures ServesFrom(codecs, Src(BatchBytes(b)[..n] + rest, n), capacity, Partly(b, n), Cutoff(rest, capacity))
  {
    hide BatchBytes, ReadMessage, OpenBatch, WellFormed, Cutoff, Stretch, CompleteRecords, HeaderValues, Recs;
    CountPositive(codecs, b);
    forall t | Between(t, Src(BatchBytes(b)[..n] + rest, n), capacity)
      ensures Serves(codecs, t, Partly(b, n), Cutoff(rest, capacity))
    {
      if n < 61 {
        CutHeader(codecs, t, b, n, rest, capacity);
      } else if b.codec.Some? {
        CutCompressed(codecs, t, b, n, rest, capacity);
      } else {
        CutPlain(codecs, t, b, n, rest, capacity);
        ServesCut(codecs, OpenBatch(codecs, t).st, b, 0, n - 61, rest, capacity);
      }
    }
  }

  // ---------------------------------------------------------------------
  // Any prefix of a response
  // ---------------------------------------------------------------------

  /** The messages that the first `n` bytes of a response give. */
  function PrefixGives(bs: seq<Batch>, n: nat): seq<Fetched>
    requires NonEmpty(bs)
    decreases |bs|
  {
    if bs == [] then []
    else if n < |BatchBytes(bs[0])| then Partly(bs[0], n)
    else ExpectedFrom(bs[0], 0) + PrefixGives(bs[1..], n - |BatchBytes(bs[0])|)
  }

  lemma {:induction false} ServesPrefix(codecs: Registry, bs: seq<Batch>, n: nat, rest: seq<byte>, capacity: nat)
    requires AllValid(codecs, capacity, bs) && n <= |BatchesBytes(bs)|
    ensures ServesFrom(codecs, Src(BatchesBytes(bs)[..n] + rest, n), capacity, PrefixGives(bs, n),
                       Cutoff(rest, capacity))
    decreases |bs|
  {
    hide Valid, BatchBytes, ExpectedFrom, ServesFrom, Partly, Cutoff;
    if bs == [] {
      assert BatchesBytes(bs)[..n] + rest == rest;
      EndCut(codecs, rest, capacity);
    } else {
      var x, more := BatchBytes(bs[0]), bs[1..];
      if n < |x| {
        assert BatchesBytes(bs)[..n] == x[..n];
        ServesPart(codecs, bs[0], n, rest, capacity);
      } else {
        var k, y := n - |x|, BatchesBytes(more);
        ServesPrefix(codecs, more, k, rest, capacity);
        assert BatchesBytes(bs)[..n] == x + y[..k];
        Assoc(x, y[..k], rest);
        ServesBatch(codecs, bs[0], Src(y[..k] + rest, k), capacity, PrefixGives(more, k), Cutoff(rest, capacity));
      }
    }
  }

  lemma EndCut(codecs: Registry, rest: seq<byte>, capacity: nat)
    ensures ServesFrom(codecs, Src(rest, 0), capacity, [], Cutoff(rest, capacity))
  {
    hide ReadMessage;
    forall t | Between(t, Src(rest, 0), capacity)
      ensures Serves(codecs, t, [], Cutoff(rest, capacity))
    {
      Ends(codecs, t, rest, capacity);
    }
  }

  /**
   Any prefix of a response of record batches serves the messages of the batches
   that came in full and the records of a plain one that did, then gives a short
   read, after which discarding leaves the connection exactly behind the response.
   */
  lemma NewCut(codecs: Registry, bs: seq<Batch>, n: nat, rest: seq<byte>, capacity: nat, h: BatchHeader)
    requires AllValid(codecs, capacity, bs) && n <= |BatchesBytes(bs)|
    ensures Serves(codecs, State([Frame(Src(BatchesBytes(bs)[..n] + rest, n), capacity)], 0, h), PrefixGives(bs, n),
                   Cutoff(rest, capacity))
  {
    hide Valid, BatchesBytes, PrefixGives, Serves, Cutoff;
    ServesPrefix(codecs, bs, n, rest, capacity);
  }
}
