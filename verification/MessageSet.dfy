/**
 Message formats 0 and 1 as values: messages and compressed wrappers as the
 writers of message.go and write.go emit them, and messageSetReaderV1 with its
 stack of decompressed readers (section 5.3.3 of the Apache Kafka documentation).
 */
module MessageSet {
  import opened Collections
  import opened Wire
  import opened Codecs

  /** A message on the wire; `crc` is not looked at by the reader. */
  datatype Message = Message(offset: int, crc: int, magic: int, timestamp: int, key: Slice, value: Slice)

  /** An element of a message set; a wrapper holds a compressed set, in which there may be wrappers again. */
  datatype Item =
    | One(m: Message)
    | Wrap(offset: int, crc: int, magic: int, timestamp: int, codec: Codec, items: seq<Item>)

  datatype Fetched = Fetched(offset: int, timestamp: int, key: Slice, value: Slice)

  // ---------------------------------------------------------------------
  // As written
  // ---------------------------------------------------------------------

  /** message.size. */
  function Size(magic: int, key: Slice, value: Slice): nat {
    4 + 1 + 1 + (4 + key.Len()) + (4 + value.Len()) + if magic != 0 then 8 else 0
  }

  function Prefix(offset: int, size: int, crc: int, magic: int, attributes: int, timestamp: int): seq<byte> {
    Int64(offset) + (Int32(size) + Int32(crc))
    + (Int8(magic) + Int8(attributes))
    + (if magic != 0 then Int64(timestamp) else [])
  }

  /** messageSetItem.writeTo. */
  function Encoded(m: Message, attributes: int): seq<byte> {
    Prefix(m.offset, Size(m.magic, m.key, m.value), m.crc, m.magic, attributes, m.timestamp)
    + (Blob(m.key) + Blob(m.value))
  }

  function SetBytes(msgs: seq<Message>): seq<byte> {
    if msgs == [] then [] else Encoded(msgs[0], 0) + SetBytes(msgs[1..])
  }

  /** A wrapper is a message without key whose value is the compressed set. */
  function AsMessage(i: Item): Message
    decreases i, 0
  {
    match i
    case One(m) => m
    case Wrap(offset, crc, magic, timestamp, codec, items) =>
      Message(offset, crc, magic, timestamp, Nil, Bytes(codec.Encode(ItemsBytes(items))))
  }

  function Code(i: Item): int {
    if i.One? then 0 else i.codec.code
  }

  function ItemBytes(i: Item): seq<byte>
    decreases i, 1
  {
    Encoded(AsMessage(i), Code(i))
  }

  function ItemsBytes(items: seq<Item>): seq<byte>
    decreases items
  {
    if items == [] then [] else ItemBytes(items[0]) + ItemsBytes(items[1..])
  }

  // ---------------------------------------------------------------------
  // The reader
  // ---------------------------------------------------------------------

  datatype Frame = Frame(src: Src, base: int)

  /**
   messageSetReaderV1.  `conn` is the frame that does actual I/O, `above` the
   decompressed frames pushed on it; `done` when the stack has become nil.
   */
  datatype State = State(conn: Src, done: bool, above: seq<Frame>) {
    function Top(): Frame {
      if above == [] then Frame(conn, 0) else above[|above| - 1]
    }

    function SetTop(src: Src): State {
      if above == [] then this.(conn := src)
      else this.(above := above[|above| - 1 := Frame(src, above[|above| - 1].base)])
    }

    function Pop(): State {
      if above == [] then this.(done := true) else this.(above := above[..|above| - 1])
    }
  }

  datatype Head = Head(offset: int, attributes: int, timestamp: int)

  /** readMessageHeader: offset; size and CRC skipped; version; attributes; timestamp in version 1. */
  function ReadHead(s: Src): R<Head> {
    var (offset, t) :- ReadInt(s, 8);
    var (_, u) :- DiscardN(t, 8);
    var (version, v) :- ReadInt(u, 1);
    var (attributes, w) :- ReadInt(v, 1);
    ReadTimestamp(offset, version, attributes, w)
  }

  function ReadTimestamp(offset: int, version: int, attributes: int, s: Src): R<Head> {
    if version == 0 then Ok(Head(offset, attributes, 0), s)
    else if version == 1 then
      var (timestamp, t) :- ReadInt(s, 8);
      Ok(Head(offset, attributes, timestamp), t)
    else Fail(BadVersion, s)
  }

  lemma DiscardShrinks(s: Src, n: int)
    ensures DiscardN(s, n).rest.remain <= s.remain
  {
  }

  /** The scanning loop of extractOffset: the offset of the last message. */
  function LastOffset(s: Src, last: int): R<int>
    decreases s.remain
  {
    if s.remain == 0 then Ok(last, s)
    else
      var (offset, t) :- ReadInt(s, 8);
      var (size, u) :- ReadInt(t, 4);
      var (_, v) :- DiscardN(u, size);
      DiscardShrinks(u, size);
      LastOffset(v, offset)
  }

  datatype Pass = Continue(st: State) | Return(result: Outcome)

  datatype Outcome = Got(m: Fetched, next: State) | Failed(err: Err, next: State)

  /** The null key of a wrapper is skipped, then its value read. */
  function ReadPayload(s: Src): R<Slice> {
    var (_, t) :- DiscardN(s, 4);
    ReadBytes(t)
  }

  function ReadKeyValue(s: Src): R<(Slice, Slice)> {
    var (key, t) :- ReadBytes(s);
    var (value, u) :- ReadBytes(t);
    Ok((key, value), u)
  }

  function SkipKeyValue(s: Src): R<()> {
    var (_, t) :- DiscardSized(s, 4);
    DiscardSized(t, 4)
  }

  /** A compressed message: its payload is decompressed and pushed as a new frame. */
  function Descend(codecs: Registry, st: State, h: Head, s: Src): Pass {
    var code := h.attributes % 4;
    if code !in codecs then Return(Failed(UnknownCodec, st.SetTop(s)))
    else match ReadPayload(s)
      case Fail(e, t) => Return(Failed(e, st.SetTop(t)))
      case Ok(b, t) => match codecs[code].Decode(b.Contents())
        case None => Return(Failed(CorruptPayload, st.SetTop(t)))
        case Some(d) => PushFrame(st.SetTop(t), h.offset, d)
  }

  function PushFrame(st: State, offset: int, d: seq<byte>): Pass {
    match LastOffset(Src(d, |d|), 0)
    case Fail(e, _) => Return(Failed(e, st))
    case Ok(last, _) => Continue(st.(above := st.above + [Frame(Src(d, |d|), Wrap64(offset - last))]))
  }

  /** A plain message: skipped when it is before `min`. */
  function Deliver(st: State, h: Head, s: Src, min: int): Pass {
    var offset := Wrap64(h.offset + st.Top().base);
    if offset < min then
      match SkipKeyValue(s)
      case Fail(e, t) => Return(Failed(e, st.SetTop(t)))
      case Ok(_, t) => Continue(st.SetTop(t))
    else
      match ReadKeyValue(s)
      case Fail(e, t) => Return(Failed(e, st.SetTop(t)))
      case Ok(kv, t) => Return(Got(Fetched(offset, h.timestamp, kv.0, kv.1), st.SetTop(t)))
  }

  /** One pass of the loop of readMessage. */
  function Turn(codecs: Registry, st: State, min: int): Pass {
    if st.done then Return(Failed(ShortRead, st))
    else if st.Top().src.remain == 0 then Continue(st.Pop())
    else match ReadHead(st.Top().src)
      case Fail(e, t) => Return(Failed(e, st.SetTop(t)))
      case Ok(h, t) =>
        if h.attributes % 4 != 0 then Descend(codecs, st, h, t) else Deliver(st, h, t, min)
  }

  /** Of the attributes only the two lowest bits matter: zero is a plain message, anything else the codec. */
  lemma CodecBits(codecs: Registry, st: State, min: int, h: Head, t: Src, q: int, c: nat)
    requires !st.done && st.Top().src.remain != 0 && ReadHead(st.Top().src) == Ok(h, t)
    requires h.attributes == 4 * q + c && c < 4
    ensures Turn(codecs, st, min)
         == if c == 0 then Deliver(st, h, t, min) else Descend(codecs, st, h.(attributes := c), t)
    ensures c != 0 && c !in codecs ==> Turn(codecs, st, min) == Return(Failed(UnknownCodec, st.SetTop(t)))
  {
    hide ReadHead, ReadPayload, PushFrame, Deliver;
    assert h.attributes % 4 == c;
  }

  /** At most `k` passes. */
  function Turns(codecs: Registry, st: State, min: int, k: nat): Pass
    decreases k
  {
    if k == 0 then Continue(st)
    else match Turn(codecs, st, min)
      case Continue(t) => Turns(codecs, t, min, k - 1)
      case Return(r) => Return(r)
  }

  /** discard: rewind to the connection's frame and skip what is left of it. */
  function Discard(st: State): State {
    if st.done then st else st.(conn := DiscardN(st.conn, st.conn.remain).rest, above := [])
  }

  // ---------------------------------------------------------------------
  // Arbitrary bytes: the connection's frame
  // ---------------------------------------------------------------------

  lemma ReadHeadConserves(s: Src)
    ensures Tail(s, ReadHead(s).rest)
  {
    hide ReadInt, DiscardN, Tail, ReadTimestamp;
    ReadIntConserves(s, 8);
    var t := ReadInt(s, 8).rest;
    DiscardNConserves(t, 8);
    var u := DiscardN(t, 8).rest;
    TailTransitive(s, t, u);
    ReadIntConserves(u, 1);
    var v := ReadInt(u, 1).rest;
    TailTransitive(s, u, v);
    ReadIntConserves(v, 1);
    var w := ReadInt(v, 1);
    TailTransitive(s, v, w.rest);
    if ReadInt(s, 8).Ok? && ReadInt(u, 1).Ok? && w.Ok? {
      TimestampConserves(ReadInt(s, 8).value, ReadInt(u, 1).value, w.value, w.rest);
      TailTransitive(s, w.rest, ReadTimestamp(ReadInt(s, 8).value, ReadInt(u, 1).value, w.value, w.rest).rest);
    }
  }

  lemma TimestampConserves(offset: int, version: int, attributes: int, s: Src)
    ensures Tail(s, ReadTimestamp(offset, version, attributes, s).rest)
  {
    hide ReadInt, Tail;
    TailSteps(s);
    ReadIntConserves(s, 8);
  }

  lemma KeyValueConserves(s: Src)
    ensures Tail(s, ReadPayload(s).rest)
    ensures Tail(s, ReadKeyValue(s).rest)
    ensures Tail(s, SkipKeyValue(s).rest)
  {
    hide ReadBytes, DiscardSized, DiscardN, Tail;
    SizedConserve(s, 4);
    DiscardNConserves(s, 4);
    var t, u, v := ReadBytes(s).rest, DiscardSized(s, 4).rest, DiscardN(s, 4).rest;
    SizedConserve(t, 4);
    SizedConserve(u, 4);
    SizedConserve(v, 4);
    TailTransitive(s, t, ReadBytes(t).rest);
    TailTransitive(s, u, DiscardSized(u, 4).rest);
    TailTransitive(s, v, ReadBytes(v).rest);
  }

  lemma SetTopConserves(st: State, s: Src, t: Src)
    requires Tail(st.Top().src, s) && Tail(s, t)
    ensures Tail(st.conn, st.SetTop(t).conn)
  {
    TailTransitive(st.Top().src, s, t);
  }

  lemma PushKeeps(st: State, offset: int, d: seq<byte>)
    ensures StateOf(PushFrame(st, offset, d)).conn == st.conn
  {
    hide LastOffset, Wrap64;
  }

  lemma DescendConserves(codecs: Registry, st: State, h: Head, s: Src)
    requires Tail(st.Top().src, s)
    ensures Tail(st.conn, StateOf(Descend(codecs, st, h, s)).conn)
  {
    hide ReadPayload, PushFrame, Tail;
    KeyValueConserves(s);
    TailSteps(s);
    SetTopConserves(st, s, s);
    SetTopConserves(st, s, ReadPayload(s).rest);
    forall d: seq<byte>
      ensures StateOf(PushFrame(st.SetTop(ReadPayload(s).rest), h.offset, d)).conn
                == st.SetTop(ReadPayload(s).rest).conn
    {
      PushKeeps(st.SetTop(ReadPayload(s).rest), h.offset, d);
    }
  }

  lemma DeliverConserves(st: State, h: Head, s: Src, min: int)
    requires Tail(st.Top().src, s)
    ensures Tail(st.conn, StateOf(Deliver(st, h, s, min)).conn)
  {
    hide ReadKeyValue, SkipKeyValue, Tail, Wrap64;
    KeyValueConserves(s);
    SetTopConserves(st, s, ReadKeyValue(s).rest);
    SetTopConserves(st, s, SkipKeyValue(s).rest);
  }

  function StateOf(p: Pass): State {
    match p case Continue(t) => t case Return(r) => r.next
  }

  /** The stack becomes nil only when the connection's frame is used up. */
  ghost predicate Sound(st: State) {
    st.done ==> st.conn.remain == 0 && st.above == []
  }

  lemma KeepsDone(codecs: Registry, st: State, h: Head, s: Src, min: int)
    ensures StateOf(Descend(codecs, st, h, s)).done == st.done
    ensures StateOf(Deliver(st, h, s, min)).done == st.done
  {
    hide LastOffset, ReadPayload, ReadKeyValue, SkipKeyValue, Wrap64;
  }

  lemma TurnConserves(codecs: Registry, st: State, min: int)
    requires Sound(st)
    ensures Tail(st.conn, StateOf(Turn(codecs, st, min)).conn)
    ensures Sound(StateOf(Turn(codecs, st, min)))
  {
    hide ReadHead, Descend, Deliver, Tail;
    var s := st.Top().src;
    ReadHeadConserves(s);
    TailSteps(s);
    TailSteps(st.conn);
    var r := ReadHead(s);
    SetTopConserves(st, s, r.rest);
    if r.Ok? {
      DescendConserves(codecs, st, r.value, r.rest);
      DeliverConserves(st, r.value, r.rest, min);
      KeepsDone(codecs, st, r.value, r.rest, min);
    }
  }

  lemma {:induction false} TurnsConserve(codecs: Registry, st: State, min: int, k: nat)
    requires Sound(st)
    ensures Tail(st.conn, StateOf(Turns(codecs, st, min, k)).conn)
    ensures Sound(StateOf(Turns(codecs, st, min, k)))
    decreases k
  {
    hide Turn, Sound;
    if k > 0 {
      TurnConserves(codecs, st, min);
      var p := Turn(codecs, st, min);
      if p.Continue? {
        TurnsConserve(codecs, p.st, min, k - 1);
        TailTransitive(st.conn, p.st.conn, StateOf(Turns(codecs, p.st, min, k - 1)).conn);
      }
    }
  }

  /**
   Whatever the bytes and whatever frames are stacked, discard leaves the
   connection exactly at the end of the response.
   */
  lemma DiscardEndsResponse(codecs: Registry, conn: Src, mins: seq<int>, ks: seq<nat>)
    requires |mins| == |ks| && conn.remain <= |conn.data|
    ensures var st := Discard(AfterReads(codecs, State(conn, false, []), mins, ks));
            st.conn == Src(conn.data[conn.remain..], 0) && (!st.done ==> st.above == [])
  {
    hide AfterReads;
    var st := AfterReads(codecs, State(conn, false, []), mins, ks);
    AfterReadsConserve(codecs, State(conn, false, []), mins, ks);
    assert Tail(conn, st.conn);
    assert st.conn.remain <= |st.conn.data|;
    assert st.conn.data[st.conn.remain..] == conn.data[conn.remain..];
  }

  /** Any number of reads, with any minimum and any number of passes each. */
  function AfterReads(codecs: Registry, st: State, mins: seq<int>, ks: seq<nat>): State
    requires |mins| == |ks|
    decreases |mins|
  {
    if mins == [] then st
    else AfterReads(codecs, StateOf(Turns(codecs, st, mins[0], ks[0])), mins[1..], ks[1..])
  }

  lemma {:induction false} AfterReadsConserve(codecs: Registry, st: State, mins: seq<int>, ks: seq<nat>)
    requires |mins| == |ks| && Sound(st)
    ensures Tail(st.conn, AfterReads(codecs, st, mins, ks).conn)
    ensures Sound(AfterReads(codecs, st, mins, ks))
    decreases |mins|
  {
    hide Turns, Sound;
    if mins != [] {
      TurnsConserve(codecs, st, mins[0], ks[0]);
      var t := StateOf(Turns(codecs, st, mins[0], ks[0]));
      AfterReadsConserve(codecs, t, mins[1..], ks[1..]);
      TailTransitive(st.conn, t.conn, AfterReads(codecs, t, mins[1..], ks[1..]).conn);
    }
  }
}
