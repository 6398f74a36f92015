/** messageSetReaderV2 of message.go: an object that advances its readers and stacks decompressed ones. */
module RecordBatchReader {
  import opened Collections
  import opened Wire
  import opened Codecs
  import opened RecordBatch
  import VarInt
  import Streams

  // ---------------------------------------------------------------------
  // One record from one buffered reader
  // ---------------------------------------------------------------------

  method ReadSizedFrom(r: Streams.Reader, sz: nat) returns (b: Slice, remain: nat, err: Err)
    modifies r
    ensures Streams.Finishes(ReadSized(old(r.At(sz))), r.At(remain), err)
    ensures err == NoError ==> b == ReadSized(old(r.At(sz))).value
  {
    hide VarInt.Read;
    b := Nil;
    var n: int;
    n, remain, err := VarInt.ReadVarInt(r, sz);
    if err == NoError {
      b, remain, err := Streams.ReadNewBytes(r, remain, n);
    }
  }

  method ReadHeaderFrom(r: Streams.Reader, sz: nat) returns (h: Header, remain: nat, err: Err)
    modifies r
    ensures Streams.Finishes(ReadHeader(old(r.At(sz))), r.At(remain), err)
    ensures err == NoError ==> h == ReadHeader(old(r.At(sz))).value
  {
    hide ReadSized;
    h := Header([], Nil);
    var key: Slice, value: Slice;
    key, remain, err := ReadSizedFrom(r, sz);
    if err != NoError {
      return;
    }
    value, remain, err := ReadSizedFrom(r, remain);
    h := Header(key.Contents(), value);
  }

  method ReadHeadersFrom(r: Streams.Reader, sz: nat, n: nat) returns (hs: seq<Header>, remain: nat, err: Err)
    modifies r
    ensures Streams.Finishes(ReadHeaders(old(r.At(sz)), n), r.At(remain), err)
    ensures err == NoError ==> hs == ReadHeaders(old(r.At(sz)), n).value
  {
    hs, remain, err := [], sz, NoError;
    ghost var all := ReadHeaders(r.At(sz), n);
    assert all.Ok? ==> [] + all.value == all.value;
    var i := 0;
    while i < n && err == NoError
      invariant 0 <= i <= n
      invariant err == NoError ==> Streams.Continues(all, hs, ReadHeaders(r.At(remain), n - i))
      invariant err != NoError ==> all == Fail(err, r.At(remain))
      decreases n - i, err == NoError
    {
      hide ReadHeaders, ReadHeader;
      ContinuesStep(all, hs, r.At(remain), n - i);
      var h: Header;
      h, remain, err := ReadHeaderFrom(r, remain);
      if err == NoError {
        hs, i := hs + [h], i + 1;
      }
    }
  }

  lemma ContinuesStep(all: R<seq<Header>>, hs: seq<Header>, s: Src, n: nat)
    requires n > 0 && Streams.Continues(all, hs, ReadHeaders(s, n))
    ensures var r := ReadHeader(s);
            && (r.Fail? ==> all == Fail(r.error, r.rest))
            && (r.Ok? ==> Streams.Continues(all, hs + [r.value], ReadHeaders(r.rest, n - 1)))
  {
    hide ReadHeader;
    var r := ReadHeader(s);
    if r.Ok? {
      Streams.OneMore(all, hs, ReadHeaders(s, n), r.value, ReadHeaders(r.rest, n - 1));
    }
  }

  method ReadDeltasFrom(r: Streams.Reader, sz: nat) returns (ts: int, off: int, remain: nat, err: Err)
    modifies r
    ensures Streams.Finishes(ReadDeltas(old(r.At(sz))), r.At(remain), err)
    ensures err == NoError ==> (ts, off) == ReadDeltas(old(r.At(sz))).value
  {
    hide VarInt.Read, ReadInt;
    ts, off := 0, 0;
    var length, attributes: int;
    length, remain, err := VarInt.ReadVarInt(r, sz);
    if err != NoError {
      return;
    }
    attributes, remain, err := Streams.ReadInt(r, remain, 1);
    if err != NoError {
      return;
    }
    ts, remain, err := VarInt.ReadVarInt(r, remain);
    if err != NoError {
      return;
    }
    off, remain, err := VarInt.ReadVarInt(r, remain);
  }

  method ReadKeyValueFrom(r: Streams.Reader, sz: nat) returns (key: Slice, value: Slice, remain: nat, err: Err)
    modifies r
    ensures Streams.Finishes(ReadKeyValue(old(r.At(sz))), r.At(remain), err)
    ensures err == NoError ==> (key, value) == ReadKeyValue(old(r.At(sz))).value
  {
    hide ReadSized;
    value := Nil;
    key, remain, err := ReadSizedFrom(r, sz);
    if err == NoError {
      value, remain, err := ReadSizedFrom(r, remain);
    }
  }

  method ReadHeaderListFrom(r: Streams.Reader, sz: nat) returns (hs: seq<Header>, remain: nat, err: Err)
    modifies r
    ensures Streams.Finishes(ReadHeaderList(old(r.At(sz))), r.At(remain), err)
    ensures err == NoError ==> hs == ReadHeaderList(old(r.At(sz))).value
  {
    hide VarInt.Read, ReadHeaders;
    hs := [];
    var n: int;
    n, remain, err := VarInt.ReadVarInt(r, sz);
    if err == NoError {
      if n < 0 {
        err := Panicked;
      } else {
        hs, remain, err := ReadHeadersFrom(r, remain, n);
      }
    }
  }

  method ReadRecordFrom(r: Streams.Reader, sz: nat) returns (v: Record, remain: nat, err: Err)
    modifies r
    ensures Streams.Finishes(ReadRecord(old(r.At(sz))), r.At(remain), err)
    ensures err == NoError ==> v == ReadRecord(old(r.At(sz))).value
  {
    hide ReadDeltas, ReadKeyValue, ReadHeaderList;
    v := Record(0, 0, Nil, Nil, []);
    var ts, off, key, value, headers;
    ts, off, remain, err := ReadDeltasFrom(r, sz);
    if err != NoError {
      return;
    }
    key, value, remain, err := ReadKeyValueFrom(r, remain);
    if err != NoError {
      return;
    }
    headers, remain, err := ReadHeaderListFrom(r, remain);
    v := Record(ts, off, key, value, headers);
  }

  // ---------------------------------------------------------------------
  // The reader
  // ---------------------------------------------------------------------

  datatype Entry = Entry(reader: Streams.Reader, remain: nat)

  function Frames(entries: seq<Entry>): (fs: seq<Frame>)
    reads set e | e in entries :: e.reader
    ensures |fs| == |entries|
    ensures forall i :: 0 <= i < |entries| ==>
              fs[i] == Frame(entries[i].reader.At(entries[i].remain), entries[i].reader.capacity)
  {
    if entries == [] then []
    else [Frame(entries[0].reader.At(entries[0].remain), entries[0].reader.capacity)] + Frames(entries[1..])
  }

  class MessageSetReaderV2 {
    var stack: seq<Entry>
    var count: int
    var header: BatchHeader
    const codecs: Registry

    ghost predicate Valid()
      reads this
    {
      && stack != []
      && forall i, j :: 0 <= i < j < |stack| ==> stack[i].reader != stack[j].reader
    }

    ghost function Readers(): set<Streams.Reader>
      reads this
    {
      set e | e in stack :: e.reader
    }

    /** What the object stands for. */
    ghost function View(): State
      reads this, Readers()
    {
      State(Frames(stack), count, header)
    }

    constructor (codecs: Registry, reader: Streams.Reader, remain: nat)
      ensures Valid() && this.codecs == codecs && stack == [Entry(reader, remain)] && count == 0
      ensures header == BatchHeader(0, 0, 0, 0, 0, 0, 0, 0, 0, 0, 0, 0)
    {
      this.codecs := codecs;
      stack := [Entry(reader, remain)];
      count := 0;
      header := BatchHeader(0, 0, 0, 0, 0, 0, 0, 0, 0, 0, 0, 0);
    }

    /** `r.remain = ...` after the reader on top of the stack, and no other, has advanced. */
    method SetRemain(remain: nat, ghost before: State)
      requires Valid()
      requires BelowTop(Frames(stack), before) && count == before.count && header == before.header
      modifies this`stack
      ensures Valid() && |stack| == |old(stack)| && Readers() == old(Readers())
      ensures stack[|stack| - 1].reader == old(stack)[|stack| - 1].reader
      ensures View() == before.SetTop(stack[|stack| - 1].reader.At(remain))
    {
      hide Frames;
      var n := |stack| - 1;
      ghost var was := stack;
      stack := stack[n := Entry(stack[n].reader, remain)];
      assert forall i :: 0 <= i < |stack| ==> stack[i].reader == was[i].reader;
      SameReaders(was, stack);
    }

    /** readMessage: the next record, opening the next batch first when the last is used up. */
    method ReadMessage() returns (m: Fetched, err: Err)
      requires Valid()
      modifies this, Readers()
      ensures Valid() && fresh(Readers() - old(Readers()))
      ensures View() == RecordBatch.ReadMessage(codecs, old(View())).next
      ensures err == NoError <==> RecordBatch.ReadMessage(codecs, old(View())).Got?
      ensures err == NoError ==> m == RecordBatch.ReadMessage(codecs, old(View())).m
      ensures err != NoError ==> err == RecordBatch.ReadMessage(codecs, old(View())).err
    {
      hide RecordBatch.OpenBatch, RecordBatch.NextRecord;
      m, err := Fetched(0, 0, Nil, Nil, []), NoError;
      if count == 0 {
        err := OpenBatch();
        if err != NoError {
          return;
        }
      }
      m, err := NextRecord();
    }

    method NextRecord() returns (m: Fetched, err: Err)
      requires Valid()
      modifies this, Readers()
      ensures Valid() && Readers() == old(Readers())
      ensures View() == RecordBatch.NextRecord(old(View())).next
      ensures err == NoError <==> RecordBatch.NextRecord(old(View())).Got?
      ensures err == NoError ==> m == RecordBatch.NextRecord(old(View())).m
      ensures err != NoError ==> err == RecordBatch.NextRecord(old(View())).err
    {
      hide ReadRecord, Wrap64, Frames;
      m := Fetched(0, 0, Nil, Nil, []);
      var top := stack[|stack| - 1];
      ghost var before := View();
      var v, remain;
      v, remain, err := ReadRecordFrom(top.reader, top.remain);
      SetRemain(remain, before);
      if err == NoError {
        count := count - 1;
        m := Fetched(Wrap64(header.firstOffset + v.offsetDelta), Wrap64(header.firstTimestamp + v.timestampDelta),
                     v.key, v.value, v.headers);
      }
    }

    /** A used-up decompressed frame is dropped. */
    method Pop()
      requires Valid()
      modifies this`stack
      ensures Valid() && Readers() <= old(Readers())
      ensures View() == Unwind(old(View()))
    {
      hide Frames;
      if stack[|stack| - 1].remain == 0 && |stack| > 1 {
        SubReaders(stack, |stack| - 1);
        stack := stack[..|stack| - 1];
      }
    }

    method OpenBatch() returns (err: Err)
      requires Valid()
      modifies this, Readers()
      ensures Valid() && fresh(Readers() - old(Readers()))
      ensures RecordBatch.OpenBatch(codecs, old(View())) == Step(err, View())
    {
      hide RecordBatch.Decompress, ReadFields, FieldsRead, Overlay, Frames, Unwind;
      Pop();
      err := ReadHeader();
      if err == NoError {
        err := Decompress();
      }
    }

    /** readHeader: the fields are stored one by one, the count only after all of them. */
    method ReadHeader() returns (err: Err)
      requires Valid()
      modifies this, Readers()
      ensures Valid() && Readers() == old(Readers())
      ensures match ReadFields(old(View()).Top().src, LAYOUT)
              case Ok(v, t) => err == NoError && View() == old(View()).SetTop(t).(header := ToHeader(v), count := v[12])
              case Fail(e, t) =>
                && err == e != NoError
                && View() == old(View()).SetTop(t)
                             .(header := Overlay(old(header), FieldsRead(old(View()).Top().src, LAYOUT)))
    {
      hide ReadFields, Frames, FieldsRead, Overlay;
      ghost var before := View();
      var top := stack[|stack| - 1];
      var v, remain;
      v, remain, err := Streams.ReadFields(top.reader, top.remain, LAYOUT);
      SetRemain(remain, before);
      header := Overlay(header, v);
      if err == NoError {
        count := v[12];
      }
    }

    method Decompress() returns (err: Err)
      requires Valid()
      modifies this, Readers()
      ensures Valid() && fresh(Readers() - old(Readers()))
      ensures RecordBatch.Decompress(codecs, old(View())) == Step(err, View())
    {
      hide Frames;
      var code := header.attributes % 8;
      if code == 0 {
        return NoError;
      }
      if code !in codecs {
        return UnknownCodec;
      }
      var top := stack[|stack| - 1];
      var n := Wrap32(header.length - 49);
      if n > top.remain {
        return ShortRead;
      }
      var b;
      b, err := top.reader.Peek(n);
      if err != NoError {
        return;
      }
      match codecs[code].Decode(b) {
        case None =>
          return CorruptPayload;
        case Some(d) =>
          err := Descend(n, d);
      }
    }

    /** The compressed bytes are skipped below and the decompressed ones stacked above. */
    method Descend(n: nat, d: seq<byte>) returns (err: Err)
      requires Valid() && n <= stack[|stack| - 1].remain && n <= |stack[|stack| - 1].reader.data|
      modifies this, Readers()
      ensures Valid() && fresh(Readers() - old(Readers()))
      ensures err == NoError
      ensures var below := old(View()).SetTop(old(View()).Top().src.Drop(n));
              View() == below.(stack := below.stack + [Frame(Src(d, |d|), DEFAULT_CAPACITY)])
    {
      hide Frames;
      err := Skip(n);
      var inner := new Streams.Reader(d, DEFAULT_CAPACITY);
      Push(Entry(inner, |d|));
    }

    /** discardN on the frame on top. */
    method Skip(n: int) returns (err: Err)
      requires Valid()
      modifies this, Readers()
      ensures Valid() && Readers() == old(Readers())
      ensures var r := Wire.DiscardN(old(View()).Top().src, n);
              && View() == old(View()).SetTop(r.rest)
              && err == ErrorOf(r)
              && (r.Ok? <==> err == NoError)
    {
      hide Frames, Wire.DiscardN;
      ghost var before := View();
      var top := stack[|stack| - 1];
      var remain;
      remain, err := Streams.DiscardN(top.reader, top.remain, n);
      SetRemain(remain, before);
    }

    method Push(e: Entry)
      requires Valid() && e.reader !in Readers()
      modifies this`stack
      ensures Valid() && Readers() == old(Readers()) + {e.reader}
      ensures View() == old(View()).(stack := old(View()).stack + [Frame(e.reader.At(e.remain), e.reader.capacity)])
    {
      hide Frames;
      ghost var before := stack;
      stack := stack + [e];
      assert forall x :: x in stack <==> x in before || x == e;
    }

    /** discard: only the frame on top, even when that is a decompressed one. */
    method Discard() returns (err: Err)
      requires Valid()
      modifies this, Readers()
      ensures Valid() && Readers() == old(Readers())
      ensures View() == RecordBatch.Discard(old(View()))
      ensures var src := old(View()).Top().src;
              err == ErrorOf(Wire.DiscardN(src, src.remain))
    {
      hide Frames, Wire.DiscardN;
      err := Skip(stack[|stack| - 1].remain);
    }
  }

  /** `fs` is the stack of `before`, but for the source on top. */
  ghost predicate BelowTop(fs: seq<Frame>, before: State) {
    && before.stack != [] && |fs| == |before.stack|
    && (forall i :: 0 <= i < |fs| - 1 ==> fs[i] == before.stack[i])
    && fs[|fs| - 1].capacity == before.Top().capacity
  }

  lemma SameReaders(a: seq<Entry>, b: seq<Entry>)
    requires |a| == |b| && forall i :: 0 <= i < |a| ==> a[i].reader == b[i].reader
    ensures (set e | e in a :: e.reader) == (set e | e in b :: e.reader)
  {
    forall e | e in a
      ensures e.reader in (set x | x in b :: x.reader)
    {
      var i :| 0 <= i < |a| && a[i] == e;
      assert b[i] in b;
    }
    forall e | e in b
      ensures e.reader in (set x | x in a :: x.reader)
    {
      var i :| 0 <= i < |b| && b[i] == e;
      assert a[i] in a;
    }
  }

  lemma SubReaders(a: seq<Entry>, n: nat)
    requires n <= |a|
    ensures (set e | e in a[..n] :: e.reader) <= (set e | e in a :: e.reader)
  {
  }
}
