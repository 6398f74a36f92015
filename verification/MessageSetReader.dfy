/** messageSetReaderV1 of message.go: a loop over a stack of readers that it pushes and pops. */
module MessageSetReader {
  import opened Collections
  import opened Wire
  import opened Codecs
  import opened MessageSet
  import Streams

  // ---------------------------------------------------------------------
  // Off one buffered reader
  // ---------------------------------------------------------------------

  /** readMessageHeader. */
  method ReadHeadFrom(r: Streams.Reader, sz: nat) returns (h: Head, remain: nat, err: Err)
    modifies r
    ensures Streams.Finishes(ReadHead(old(r.At(sz))), r.At(remain), err)
    ensures err == NoError ==> h == ReadHead(old(r.At(sz))).value
  {
    hide ReadInt, Wire.DiscardN;
    h := Head(0, 0, 0);
    var offset, version, attributes, timestamp: int := 0, 0, 0, 0;
    offset, remain, err := Streams.ReadInt(r, sz, 8);
    if err != NoError {
      return;
    }
    remain, err := Streams.DiscardN(r, remain, 8);
    if err != NoError {
      return;
    }
    version, remain, err := Streams.ReadInt(r, remain, 1);
    if err != NoError {
      return;
    }
    attributes, remain, err := Streams.ReadInt(r, remain, 1);
    if err != NoError {
      return;
    }
    if version == 1 {
      timestamp, remain, err := Streams.ReadInt(r, remain, 8);
    } else if version != 0 {
      err := BadVersion;
    }
    h := Head(offset, attributes, timestamp);
  }

  method ReadPayloadFrom(r: Streams.Reader, sz: nat) returns (b: Slice, remain: nat, err: Err)
    modifies r
    ensures Streams.Finishes(ReadPayload(old(r.At(sz))), r.At(remain), err)
    ensures err == NoError ==> b == ReadPayload(old(r.At(sz))).value
  {
    hide ReadBytes, Wire.DiscardN;
    b := Nil;
    remain, err := Streams.DiscardN(r, sz, 4);
    if err == NoError {
      b, remain, err := Streams.ReadBytes(r, remain);
    }
  }

  method ReadKeyValueFrom(r: Streams.Reader, sz: nat) returns (key: Slice, value: Slice, remain: nat, err: Err)
    modifies r
    ensures Streams.Finishes(ReadKeyValue(old(r.At(sz))), r.At(remain), err)
    ensures err == NoError ==> (key, value) == ReadKeyValue(old(r.At(sz))).value
  {
    hide ReadBytes;
    value := Nil;
    key, remain, err := Streams.ReadBytes(r, sz);
    if err == NoError {
      value, remain, err := Streams.ReadBytes(r, remain);
    }
  }

  method SkipKeyValueFrom(r: Streams.Reader, sz: nat) returns (remain: nat, err: Err)
    modifies r
    ensures Streams.Finishes(SkipKeyValue(old(r.At(sz))), r.At(remain), err)
  {
    hide DiscardSized;
    remain, err := Streams.DiscardSized(r, sz, 4);
    if err == NoError {
      remain, err := Streams.DiscardSized(r, remain, 4);
    }
  }

  /** extractOffset: the base of a decompressed message set. */
  method ExtractOffset(base: int, d: seq<byte>) returns (offset: int, err: Err)
    ensures match LastOffset(Src(d, |d|), 0)
            case Ok(last, _) => err == NoError && offset == Wrap64(base - last)
            case Fail(e, _) => err == e != NoError
  {
    hide ReadInt, Wire.DiscardN, Wrap64;
    var r := new Streams.Reader(d, 4096);
    var remain: nat := |d|;
    offset, err := 0, NoError;
    while remain > 0
      invariant LastOffset(Src(d, |d|), 0) == LastOffset(r.At(remain), offset)
      decreases remain
    {
      ghost var before := r.At(remain);
      offset, remain, err := Streams.ReadInt(r, remain, 8);
      if err != NoError {
        return;
      }
      var size;
      size, remain, err := Streams.ReadInt(r, remain, 4);
      if err != NoError {
        return;
      }
      DiscardShrinks(r.At(remain), size);
      remain, err := Streams.DiscardN(r, remain, size);
      if err != NoError {
        return;
      }
    }
    offset := Wrap64(base - offset);
    err := NoError;
  }

  // ---------------------------------------------------------------------
  // The reader
  // ---------------------------------------------------------------------

  datatype Entry = Entry(reader: Streams.Reader, remain: nat, base: int)

  function Frames(entries: seq<Entry>): (fs: seq<Frame>)
    reads set e | e in entries :: e.reader
    ensures |fs| == |entries|
    ensures forall i :: 0 <= i < |entries| ==> fs[i] == Frame(entries[i].reader.At(entries[i].remain), entries[i].base)
  {
    if entries == [] then []
    else [Frame(entries[0].reader.At(entries[0].remain), entries[0].base)] + Frames(entries[1..])
  }

  /** The state a stack of frames stands for; an empty stack still knows where the connection is. */
  ghost function ToState(fs: seq<Frame>, conn: Src): State {
    if fs == [] then State(conn, true, []) else State(fs[0].src, false, fs[1..])
  }

  class MessageSetReaderV1 {
    var stack: seq<Entry>
    const conn: Streams.Reader
    const codecs: Registry

    ghost predicate Valid()
      reads this
    {
      && (forall i, j :: 0 <= i < j < |stack| ==> stack[i].reader != stack[j].reader)
      && (stack != [] ==> stack[0].reader == conn && stack[0].base == 0)
    }

    ghost function Readers(): set<Streams.Reader>
      reads this
    {
      (set e | e in stack :: e.reader) + {conn}
    }

    /** What the object stands for. */
    ghost function View(): State
      reads this, Readers()
    {
      ToState(Frames(stack), conn.At(0))
    }

    constructor (codecs: Registry, reader: Streams.Reader, remain: nat)
      ensures Valid() && this.codecs == codecs && conn == reader && stack == [Entry(reader, remain, 0)]
    {
      this.codecs := codecs;
      conn := reader;
      stack := [Entry(reader, remain, 0)];
    }

    /** `r.remain = ...` after the reader on top of the stack, and no other, has advanced. */
    method SetRemain(remain: nat, ghost before: State)
      requires Valid() && stack != [] && !before.done
      requires BelowTop(Frames(stack), before)
      modifies this`stack
      ensures Valid() && stack != [] && Readers() == old(Readers())
      ensures View() == before.SetTop(old(stack)[|old(stack)| - 1].reader.At(remain))
    {
      hide Frames;
      var n := |stack| - 1;
      ghost var was := stack;
      stack := stack[n := stack[n].(remain := remain)];
      assert forall i :: 0 <= i < |stack| ==> stack[i].reader == was[i].reader;
      SameReaders(was, stack);
      TopOnly(Frames(stack), before, stack[n].reader.At(remain));
    }

    /** readMessage, for any number of passes of its loop: `ended` says whether it has returned by then. */
    method ReadMessage(min: int, bound: nat) returns (ended: bool, m: Fetched, err: Err)
      requires Valid()
      modifies this, Readers()
      ensures Valid() && fresh(Readers() - old(Readers()))
      ensures match Turns(codecs, old(View()), min, bound)
              case Continue(t) => !ended && View() == t
              case Return(Got(x, t)) => ended && err == NoError && m == x && View() == t
              case Return(Failed(e, t)) => ended && err == e != NoError && View() == t
    {
      hide Turn, Turns, Frames;
      ended, m, err := false, Fetched(0, 0, Nil, Nil), NoError;
      var k := bound;
      ghost var start := View();
      while stack != [] && k > 0
        invariant Valid() && fresh(Readers() - old(Readers()))
        invariant Turns(codecs, View(), min, k) == Turns(codecs, start, min, bound)
        decreases k
      {
        OneTurn(codecs, View(), min, k);
        var again;
        again, m, err := Pass(min);
        if !again {
          ended := true;
          return;
        }
        k := k - 1;
      }
      LastTurn(codecs, View(), min, k);
      if k > 0 {
        ended, err := true, ShortRead;
      }
    }

    /** The body of the loop. */
    method Pass(min: int) returns (again: bool, m: Fetched, err: Err)
      requires Valid() && stack != []
      modifies this, Readers()
      ensures Valid() && fresh(Readers() - old(Readers()))
      ensures match Turn(codecs, old(View()), min)
              case Continue(t) => again && View() == t
              case Return(Got(x, t)) => !again && err == NoError && m == x && View() == t
              case Return(Failed(e, t)) => !again && err == e != NoError && View() == t
    {
      hide Frames, ReadHead, MessageSet.Descend, MessageSet.Deliver;
      m, again, err := Fetched(0, 0, Nil, Nil), true, NoError;
      ghost var before := View();
      if stack[|stack| - 1].remain == 0 {
        Pop();
        return;
      }
      var h;
      h, err := TopHead();
      if err != NoError {
        again := false;
        return;
      }
      AfterHead(before, View());
      if h.attributes % 4 != 0 {
        again, err := Descend(h, before);
      } else {
        again, m, err := Deliver(h, min, before);
      }
    }

    method Pop()
      requires Valid() && stack != [] && stack[|stack| - 1].remain == 0
      modifies this`stack
      ensures Valid() && Readers() <= old(Readers())
      ensures View() == old(View()).Pop()
    {
      hide Frames;
      ghost var was := stack;
      stack := stack[..|stack| - 1];
      assert forall e :: e in stack ==> e in was;
      if stack != [] {
        assert Frames(stack)[1..] == Frames(was)[1..][..|was| - 2];
      }
    }

    method TopHead() returns (h: Head, err: Err)
      requires Valid() && stack != []
      modifies this, Readers()
      ensures Valid() && stack != [] && Readers() == old(Readers())
      ensures var r := ReadHead(old(View()).Top().src);
              && View() == old(View()).SetTop(r.rest)
              && (r.Ok? ==> err == NoError && h == r.value)
              && (r.Fail? ==> err == r.error != NoError)
    {
      hide Frames, ReadHead;
      ghost var before := View();
      TopIs(Frames(stack), conn.At(0));
      var top := stack[|stack| - 1];
      var remain;
      h, remain, err := ReadHeadFrom(top.reader, top.remain);
      SetRemain(remain, before);
    }

    /** A compressed message: decompress it and push a new reader on the stack. */
    method Descend(h: Head, ghost before: State) returns (again: bool, err: Err)
      requires Valid() && stack != [] && !before.done && View() == before.SetTop(View().Top().src)
      modifies this, Readers()
      ensures Valid() && fresh(Readers() - old(Readers()))
      ensures match MessageSet.Descend(codecs, before, h, old(View()).Top().src)
              case Continue(t) => again && View() == t
              case Return(Got(x, t)) => false
              case Return(Failed(e, t)) => !again && err == e != NoError && View() == t
    {
      hide Frames, ReadPayload, PushFrame;
      again := false;
      var code := h.attributes % 4;
      if code !in codecs {
        return false, UnknownCodec;
      }
      var b;
      b, err := TopPayload(before);
      if err != NoError {
        return;
      }
      match codecs[code].Decode(b.Contents()) {
        case None =>
          err := CorruptPayload;
        case Some(d) =>
          again, err := Stack(h.offset, d);
      }
    }

    method TopPayload(ghost before: State) returns (b: Slice, err: Err)
      requires Valid() && stack != [] && !before.done && View() == before.SetTop(View().Top().src)
      modifies this, Readers()
      ensures Valid() && stack != [] && Readers() == old(Readers())
      ensures var r := ReadPayload(old(View()).Top().src);
              && View() == before.SetTop(r.rest)
              && (r.Ok? ==> err == NoError && b == r.value)
              && (r.Fail? ==> err == r.error != NoError)
    {
      hide Frames, ReadPayload;
      ghost var now := View();
      TopIs(Frames(stack), conn.At(0));
      var top := stack[|stack| - 1];
      var remain;
      b, remain, err := ReadPayloadFrom(top.reader, top.remain);
      SetRemain(remain, now);
    }

    method Stack(offset: int, d: seq<byte>) returns (again: bool, err: Err)
      requires Valid() && stack != []
      modifies this
      ensures Valid() && fresh(Readers() - old(Readers()))
      ensures match PushFrame(old(View()), offset, d)
              case Continue(t) => again && View() == t
              case Return(Got(x, t)) => false
              case Return(Failed(e, t)) => !again && err == e != NoError && View() == t
    {
      hide Frames, LastOffset, Wrap64, ToState;
      var base;
      base, err := ExtractOffset(offset, d);
      again := err == NoError;
      if again {
        var inner := new Streams.Reader(d, 4096);
        Push(Entry(inner, |d|, base));
      }
    }

    method Push(e: Entry)
      requires Valid() && stack != [] && e.reader !in Readers()
      modifies this`stack
      ensures Valid() && Readers() == old(Readers()) + {e.reader}
      ensures View() == old(View()).(above := old(View()).above + [Frame(e.reader.At(e.remain), e.base)])
    {
      hide Frames;
      ghost var was := stack;
      stack := stack + [e];
      assert forall x :: x in stack <==> x in was || x == e;
      assert Frames(stack)[1..] == Frames(was)[1..] + [Frame(e.reader.At(e.remain), e.base)];
    }

    /** A plain message: skipped or returned. */
    method Deliver(h: Head, min: int, ghost before: State) returns (again: bool, m: Fetched, err: Err)
      requires Valid() && stack != [] && !before.done && View() == before.SetTop(View().Top().src)
      modifies this, Readers()
      ensures Valid() && Readers() == old(Readers())
      ensures match MessageSet.Deliver(before, h, old(View()).Top().src, min)
              case Continue(t) => again && View() == t
              case Return(Got(x, t)) => !again && err == NoError && m == x && View() == t
              case Return(Failed(e, t)) => !again && err == e != NoError && View() == t
    {
      hide Frames, ReadKeyValue, SkipKeyValue, Wrap64, ToState;
      ghost var now := View();
      TopIs(Frames(stack), conn.At(0));
      m := Fetched(0, 0, Nil, Nil);
      var top := stack[|stack| - 1];
      var offset := Wrap64(h.offset + top.base);
      var remain;
      if offset < min {
        remain, err := SkipKeyValueFrom(top.reader, top.remain);
        again := err == NoError;
      } else {
        var key, value;
        key, value, remain, err := ReadKeyValueFrom(top.reader, top.remain);
        again, m := false, Fetched(offset, h.timestamp, key, value);
      }
      SetRemain(remain, now);
    }

    /** discard: the loop rewinds to the reader of the connection. */
    method Discard() returns (err: Err)
      requires Valid()
      modifies this, Readers()
      ensures Valid() && Readers() <= old(Readers())
      ensures View() == MessageSet.Discard(old(View()))
      ensures var was := old(View());
              err == if was.done then NoError else ErrorOf(Wire.DiscardN(was.conn, was.conn.remain))
    {
      hide Frames, Wire.DiscardN;
      err := NoError;
      if stack == [] {
        return;
      }
      ghost var was := stack;
      while |stack| > 1
        invariant 1 <= |stack| <= |was| && stack == was[..|stack|]
        modifies this`stack
        decreases |stack|
      {
        stack := stack[..|stack| - 1];
      }
      assert was[0] in was && stack == [was[0]];
      var remain;
      remain, err := Streams.DiscardN(stack[0].reader, stack[0].remain, stack[0].remain);
      stack := [stack[0].(remain := remain)];
      assert Frames(stack)[1..] == [];
    }

    /** remaining: the sizes of all frames together. */
    method Remaining() returns (remain: nat)
      requires Valid()
      ensures remain == TotalRemain(stack)
      ensures remain == 0 <==> forall e :: e in stack ==> e.remain == 0
    {
      NothingRemains(stack);
      remain := 0;
      var s := stack;
      while s != []
        invariant remain + TotalRemain(s) == TotalRemain(stack)
        decreases |s|
      {
        remain := remain + s[|s| - 1].remain;
        s := s[..|s| - 1];
      }
    }
  }

  lemma OneTurn(codecs: Registry, st: State, min: int, k: nat)
    requires k > 0
    ensures Turns(codecs, st, min, k) == match Turn(codecs, st, min)
                                         case Continue(t) => Turns(codecs, t, min, k - 1)
                                         case Return(r) => Return(r)
  {
    hide Turn;
  }

  lemma LastTurn(codecs: Registry, st: State, min: int, k: nat)
    requires st.done || k == 0
    ensures Turns(codecs, st, min, k) == if k == 0 then Continue(st) else Return(Failed(ShortRead, st))
  {
  }

  function TotalRemain(s: seq<Entry>): nat {
    if s == [] then 0 else TotalRemain(s[..|s| - 1]) + s[|s| - 1].remain
  }

  lemma {:induction false} NothingRemains(s: seq<Entry>)
    ensures TotalRemain(s) == 0 <==> forall e :: e in s ==> e.remain == 0
    decreases |s|
  {
    if s != [] {
      var init, last := s[..|s| - 1], s[|s| - 1];
      NothingRemains(init);
      assert forall e :: e in s <==> e in init || e == last;
    }
  }

  /** `fs` is the stack of `before`, but for the source on top. */
  ghost predicate BelowTop(fs: seq<Frame>, before: State) {
    && |fs| == 1 + |before.above|
    && (|fs| > 1 ==> fs[0].src == before.conn)
    && (forall i :: 1 <= i < |fs| - 1 ==> fs[i] == before.above[i - 1])
    && fs[|fs| - 1].base == before.Top().base
  }

  lemma TopOnly(fs: seq<Frame>, before: State, src: Src)
    requires BelowTop(fs, before) && !before.done && fs[|fs| - 1].src == src
    ensures ToState(fs, src) == before.SetTop(src)
  {
  }

  lemma TopIs(fs: seq<Frame>, conn: Src)
    requires fs != [] && fs[0].base == 0
    ensures ToState(fs, conn).Top() == fs[|fs| - 1]
    ensures BelowTop(fs, ToState(fs, conn))
  {
  }

  lemma AfterHead(before: State, now: State)
    requires now == before.SetTop(now.Top().src) || exists src :: now == before.SetTop(src)
    ensures now == before.SetTop(now.Top().src)
  {
  }

  lemma SameReaders(a: seq<Entry>, b: seq<Entry>)
    requires |a| == |b| && forall i :: 0 <= i < |a| ==> a[i].reader == b[i].reader
    ensures (set e | e in a :: e.reader) == (set e | e in b :: e.reader)
  {
    forall e | e in a
      ensures e.reader in (set x | x in b :: x.reader)
    {
      var i :| 0 <= i < |a| && a[i] == e;
      assert b[i] in b;
    }
    forall e | e in b
      ensures e.reader in (set x | x in a :: x.reader)
    {
      var i :| 0 <= i < |b| && b[i] == e;
      assert a[i] in a;
    }
  }
}
