/**
 A fetch from end to end: the bytes of a response, its header (read.go), the
 choice of a message set reader (message.go), and a batch over it (batch.go,
 conn.go).  What the batch delivers is what `Batches` says of the messages the
 response was made of.
 */
module Fetching {
  import opened Wire
  import opened Codecs
  import Batches
  import CutBatches
  import FormatSelection
  import MessageSet
  import MessageSetProofs
  import RecordBatch
  import RecordBatchProofs
  import Responses
  import Truncation

  /** messageSetReader: empty, or one of the two readers. */
  datatype Reader = Nothing | Old(v1: MessageSet.State) | New(v2: RecordBatch.State)

  function FromOld(f: MessageSet.Fetched): Batches.Message {
    Batches.Message(f.offset, f.timestamp, f.key, f.value, [])
  }

  function FromNew(f: RecordBatch.Fetched): Batches.Message {
    Batches.Message(f.offset, f.timestamp, f.key, f.value, f.headers)
  }

  function Olds(fs: seq<MessageSet.Fetched>): (r: seq<Batches.Message>)
    ensures |r| == |fs|
  {
    seq(|fs|, i requires 0 <= i < |fs| => FromOld(fs[i]))
  }

  function News(fs: seq<RecordBatch.Fetched>): (r: seq<Batches.Message>)
    ensures |r| == |fs|
  {
    seq(|fs|, i requires 0 <= i < |fs| => FromNew(fs[i]))
  }

  /** The errors as a batch tells them apart. */
  function ErrOf(e: Err): Batches.Err {
    match e
    case NoError => Batches.NoError
    case ShortRead => Batches.ShortRead
    case Kafka(code) => Batches.Broker(code)
    case _ => Batches.Other
  }

  // ---------------------------------------------------------------------
  // A batch over bytes
  // ---------------------------------------------------------------------

  /** One call of messageSetReader.readMessage: `reply` comes back and the reader is left as `t`. */
  ghost predicate Reads(codecs: Registry, r: Reader, min: int, reply: Batches.Reply, t: Reader) {
    match r
    case Nothing => reply == Batches.Failed(Batches.ShortRead) && t == r
    case Old(st) => exists k: nat :: OldReply(MessageSet.Turns(codecs, st, min, k), reply, t)
    case New(st) => st.stack != [] && NewReply(RecordBatch.ReadMessage(codecs, st), reply, t)
  }

  ghost predicate OldReply(p: MessageSet.Pass, reply: Batches.Reply, t: Reader) {
    && p.Return?
    && match p.result
       case Got(m, u) => reply == Batches.Got(FromOld(m)) && t == Old(u)
       case Failed(e, u) => reply == Batches.Failed(ErrOf(e)) && t == Old(u)
  }

  ghost predicate NewReply(o: RecordBatch.Outcome, reply: Batches.Reply, t: Reader) {
    match o
    case Got(m, u) => reply == Batches.Got(FromNew(m)) && t == New(u)
    case Failed(e, u) => reply == Batches.Failed(ErrOf(e)) && t == New(u)
  }

  function ErrorOf(r: R<()>): Batches.Err {
    if r.Ok? then Batches.NoError else ErrOf(r.error)
  }

  /** messageSetReader.discard: the error, and the reader afterwards. */
  function DiscardError(r: Reader): Batches.Err {
    match r
    case Nothing => Batches.NoError
    case Old(st) => if st.done then Batches.NoError else ErrorOf(DiscardN(st.conn, st.conn.remain))
    case New(st) => if st.stack == [] then Batches.NoError else ErrorOf(DiscardN(st.Top().src, st.Top().src.remain))
  }

  function Discarded(r: Reader): Reader {
    match r
    case Nothing => r
    case Old(st) => Old(MessageSet.Discard(st))
    case New(st) => if st.stack == [] then r else New(RecordBatch.Discard(st))
  }

  datatype Batch = Batch(fetched: int, offset: int, err: Batches.Err, reader: Reader)

  /** Batch.readMessage. */
  ghost predicate Steps(codecs: Registry, b: Batch, late: bool, reply: Batches.Reply, c: Batch) {
    if b.err != Batches.NoError then reply == Batches.Failed(b.err) && c == b
    else exists r, t :: Reads(codecs, b.reader, b.offset, r, t) && Reacts(b, late, r, t, reply, c)
  }

  /** What the batch makes of a reply of its reader. */
  ghost predicate Reacts(b: Batch, late: bool, r: Batches.Reply, t: Reader, reply: Batches.Reply, c: Batch) {
    match r
    case Got(m) => reply == r && c == b.(offset := m.offset + 1, reader := t)
    case Failed(e) =>
      if e != Batches.ShortRead then reply == r && c == b.(err := e, reader := t)
      else
        var d := DiscardError(t);
        var last := if d != Batches.NoError then d else if late then Batches.TIMED_OUT else Batches.EOF;
        reply == Batches.Failed(last) && c == b.(err := last, reader := Discarded(t))
  }

  /** Batch.ReadMessage, which skips at most `n` messages. */
  ghost predicate Finds(codecs: Registry, b: Batch, late: bool, n: nat, reply: Batches.Reply, c: Batch)
    decreases n
  {
    exists r, d :: Steps(codecs, b, late, r, d)
                   && if r.Got? && r.msg.offset < b.fetched then n > 0 && Finds(codecs, d, late, n - 1, reply, c)
                      else reply == r && c == d
  }

  /** Successive calls of Batch.ReadMessage. */
  ghost predicate Calls(codecs: Registry, b: Batch, lates: seq<bool>, replies: seq<Batches.Reply>, c: Batch)
    decreases |lates|
  {
    if lates == [] then replies == [] && c == b
    else
      && replies != []
      && exists n: nat, d ::
           Finds(codecs, b, lates[0], n, replies[0], d) && Calls(codecs, d, lates[1..], replies[1..], c)
  }

  // ---------------------------------------------------------------------
  // It does what the batch over messages does
  // ---------------------------------------------------------------------

  /** The reader holds the messages `ms`, and then nothing. */
  ghost predicate Holds(codecs: Registry, r: Reader, format: Batches.Format, ms: seq<Batches.Message>) {
    match r
    case Nothing => ms == []
    case Old(st) => format.V1? && exists fs, ends :: OldHolds(codecs, st, fs, ends) && ms == Olds(fs)
    case New(st) => format.V2? && exists fs, ends :: NewHolds(codecs, st, fs, ends) && ms == News(fs)
  }

  /** The reader ends where the rest of the response can be discarded. */
  ghost predicate OldHolds(codecs: Registry, st: MessageSet.State, fs: seq<MessageSet.Fetched>,
                           ends: iset<MessageSet.State>) {
    && MessageSetProofs.Serves(codecs, st, fs, ends)
    && forall f :: f in ends ==> f.done || f.conn.remain <= |f.conn.data|
  }

  ghost predicate NewHolds(codecs: Registry, st: RecordBatch.State, fs: seq<RecordBatch.Fetched>,
                           ends: iset<seq<RecordBatch.Frame>>) {
    && RecordBatchProofs.Serves(codecs, st, fs, ends)
    && forall stack: seq<RecordBatch.Frame> :: stack in ends ==>
         |stack| == 1 && stack[0].src.remain <= |stack[0].src.data|
  }

  ghost predicate Matches(codecs: Registry, b: Batch, v: Batches.View) {
    && b.fetched == v.fetched && b.offset == v.offset && b.err == v.err
    && v.ending == Batches.ShortRead && v.discards == Batches.NoError
    && (v.err == Batches.NoError ==> Holds(codecs, b.reader, v.format, v.left))
  }

  lemma {:induction false} PassOlds(fs: seq<MessageSet.Fetched>, min: int)
    ensures Batches.Pass(Batches.V1, min, Olds(fs)) == Olds(MessageSetProofs.From(fs, min))
    decreases |fs|
  {
    if fs != [] && fs[0].offset < min {
      PassOlds(fs[1..], min);
      assert Olds(fs)[1..] == Olds(fs[1..]);
    }
  }

  /** What the reader of an open batch returns next is what the sequence says. */
  lemma ReadsNext(codecs: Registry, r: Reader, format: Batches.Format, ms: seq<Batches.Message>, min: int)
    returns (t: Reader)
    requires Holds(codecs, r, format, ms)
    ensures var left := Batches.Pass(format, min, ms);
            if left == [] then
              Reads(codecs, r, min, Batches.Failed(Batches.ShortRead), t) && DiscardError(t) == Batches.NoError
            else Reads(codecs, r, min, Batches.Got(left[0]), t) && Holds(codecs, t, format, left[1..])
  {
    match r {
      case Nothing =>
        t := r;
      case Old(st) =>
        t := OldNext(codecs, st, ms, min);
      case New(st) =>
        t := NewNext(codecs, st, ms, min);
    }
  }

  lemma OldNext(codecs: Registry, st: MessageSet.State, ms: seq<Batches.Message>, min: int) returns (t: Reader)
    requires Holds(codecs, Old(st), Batches.V1, ms)
    ensures var left := Batches.Pass(Batches.V1, min, ms);
            if left == [] then
              Reads(codecs, Old(st), min, Batches.Failed(Batches.ShortRead), t) && DiscardError(t) == Batches.NoError
            else Reads(codecs, Old(st), min, Batches.Got(left[0]), t) && Holds(codecs, t, Batches.V1, left[1..])
  {
    hide MessageSet.Turns, MessageSetProofs.From, Batches.Pass;
    var fs, ends :| OldHolds(codecs, st, fs, ends) && ms == Olds(fs);
    PassOlds(fs, min);
    assert MessageSetProofs.ServesAt(codecs, st, min, fs, ends);
    var p := MessageSetProofs.From(fs, min);
    if p == [] {
      var k: nat, f :| MessageSet.Turns(codecs, st, min, k) == MessageSet.Return(MessageSet.Failed(ShortRead, f))
          && f in ends;
      t := Old(f);
      assert OldReply(MessageSet.Turns(codecs, st, min, k), Batches.Failed(Batches.ShortRead), t);
    } else {
      var k: nat, u :| MessageSet.Turns(codecs, st, min, k) == MessageSet.Return(MessageSet.Got(p[0], u))
                       && MessageSetProofs.Serves(codecs, u, p[1..], ends);
      t := Old(u);
      assert OldReply(MessageSet.Turns(codecs, st, min, k), Batches.Got(FromOld(p[0])), t);
      assert Olds(p)[1..] == Olds(p[1..]);
      assert OldHolds(codecs, u, p[1..], ends);
    }
  }

  lemma NewNext(codecs: Registry, st: RecordBatch.State, ms: seq<Batches.Message>, min: int) returns (t: Reader)
    requires Holds(codecs, New(st), Batches.V2, ms)
    ensures var left := Batches.Pass(Batches.V2, min, ms);
            if left == [] then
              Reads(codecs, New(st), min, Batches.Failed(Batches.ShortRead), t) && DiscardError(t) == Batches.NoError
            else Reads(codecs, New(st), min, Batches.Got(left[0]), t) && Holds(codecs, t, Batches.V2, left[1..])
  {
    hide RecordBatch.ReadMessage;
    var fs, ends :| NewHolds(codecs, st, fs, ends) && ms == News(fs);
    match RecordBatch.ReadMessage(codecs, st) {
      case Failed(e, u) =>
        t := New(u);
      case Got(m, u) =>
        t := New(u);
        assert News(fs)[1..] == News(fs[1..]);
        assert NewHolds(codecs, u, fs[1..], ends);
    }
  }

  lemma StepMatches(codecs: Registry, b: Batch, v: Batches.View, late: bool) returns (c: Batch)
    requires Matches(codecs, b, v)
    ensures var (reply, w) := Batches.Step(v, late);
            Steps(codecs, b, late, reply, c) && Matches(codecs, c, w)
  {
    hide Holds, Reads, Batches.Pass;
    var (reply, w) := Batches.Step(v, late);
    if b.err != Batches.NoError {
      c := b;
    } else {
      var t := ReadsNext(codecs, b.reader, v.format, v.left, v.offset);
      var left := Batches.Pass(v.format, v.offset, v.left);
      if left == [] {
        c := b.(err := Batches.Last(v, late), reader := Discarded(t));
        assert Reacts(b, late, Batches.Failed(Batches.ShortRead), t, reply, c);
      } else {
        c := b.(offset := left[0].offset + 1, reader := t);
        assert Reacts(b, late, Batches.Got(left[0]), t, reply, c);
      }
    }
  }

  lemma {:induction false} ReadMatches(codecs: Registry, b: Batch, v: Batches.View, late: bool)
    returns (n: nat, c: Batch)
    requires Matches(codecs, b, v)
    ensures var (reply, w) := Batches.Read(v, late);
            Finds(codecs, b, late, n, reply, c) && Matches(codecs, c, w)
    decreases |v.left|, v.err == Batches.NoError
  {
    hide Matches, Steps, Batches.Pass, Batches.Last;
    var d := StepMatches(codecs, b, v, late);
    MatchesFetched(codecs, b, v);
    var (r, w) := Batches.Step(v, late);
    if r.Got? && r.msg.offset < v.fetched {
      Batches.StepShrinks(v, late);
      var m;
      m, c := ReadMatches(codecs, d, w, late);
      n := m + 1;
    } else {
      n, c := 0, d;
    }
  }

  lemma MatchesFetched(codecs: Registry, b: Batch, v: Batches.View)
    requires Matches(codecs, b, v)
    ensures b.fetched == v.fetched && b.offset == v.offset && b.err == v.err
  {
  }

  /** Any number of calls on a batch over bytes get the replies that the messages in them call for. */
  lemma {:induction false} CallsMatch(codecs: Registry, b: Batch, v: Batches.View, lates: seq<bool>) returns (c: Batch)
    requires Matches(codecs, b, v)
    ensures var (replies, u) := Batches.Calls(v, lates);
            Calls(codecs, b, lates, replies, c) && Matches(codecs, c, u)
    decreases |lates|
  {
    hide Matches, Finds, Batches.Read;
    if lates == [] {
      c := b;
    } else {
      var n, d := ReadMatches(codecs, b, v, lates[0]);
      var (r, w) := Batches.Read(v, lates[0]);
      c := CallsMatch(codecs, d, w, lates[1..]);
      var (rs, u) := Batches.Calls(w, lates[1..]);
      var all := [r] + rs;
      assert all[0] == r && all[1..] == rs;
      assert Finds(codecs, b, lates[0], n, all[0], d) && Calls(codecs, d, lates[1..], all[1..], c);
    }
  }

  // ---------------------------------------------------------------------
  // The run is the only one
  // ---------------------------------------------------------------------

  lemma {:induction false} TurnsReturn(codecs: Registry, st: MessageSet.State, min: int, j: nat, k: nat)
    requires MessageSet.Turns(codecs, st, min, j).Return? && j <= k
    ensures MessageSet.Turns(codecs, st, min, k) == MessageSet.Turns(codecs, st, min, j)
    decreases k
  {
    hide MessageSet.Turn;
    if j > 0 {
      match MessageSet.Turn(codecs, st, min) {
        case Continue(t) => TurnsReturn(codecs, t, min, j - 1, k - 1);
        case Return(_) =>
      }
    }
  }

  lemma ReadsOnce(codecs: Registry, r: Reader, min: int, a: Batches.Reply, t: Reader, b: Batches.Reply, u: Reader)
    requires Reads(codecs, r, min, a, t) && Reads(codecs, r, min, b, u)
    ensures a == b && t == u
  {
    hide MessageSet.Turns, RecordBatch.ReadMessage;
    if r.Old? {
      var st := r.v1;
      var j: nat :| OldReply(MessageSet.Turns(codecs, st, min, j), a, t);
      var k: nat :| OldReply(MessageSet.Turns(codecs, st, min, k), b, u);
      if j <= k {
        TurnsReturn(codecs, st, min, j, k);
      } else {
        TurnsReturn(codecs, st, min, k, j);
      }
    }
  }

  lemma StepsOnce(codecs: Registry, b: Batch, late: bool, r1: Batches.Reply, c1: Batch, r2: Batches.Reply, c2: Batch)
    requires Steps(codecs, b, late, r1, c1) && Steps(codecs, b, late, r2, c2)
    ensures r1 == r2 && c1 == c2
  {
    hide Reads;
    if b.err == Batches.NoError {
      var a, t :| Reads(codecs, b.reader, b.offset, a, t) && Reacts(b, late, a, t, r1, c1);
      var d, u :| Reads(codecs, b.reader, b.offset, d, u) && Reacts(b, late, d, u, r2, c2);
      ReadsOnce(codecs, b.reader, b.offset, a, t, d, u);
    }
  }

  lemma {:induction false} FindsOnce(codecs: Registry, b: Batch, late: bool, m: nat, r1: Batches.Reply, c1: Batch,
                                     n: nat, r2: Batches.Reply, c2: Batch)
    requires Finds(codecs, b, late, m, r1, c1) && Finds(codecs, b, late, n, r2, c2)
    ensures r1 == r2 && c1 == c2
    decreases m
  {
    hide Steps;
    var r, d :| Steps(codecs, b, late, r, d)
                && if r.Got? && r.msg.offset < b.fetched then m > 0 && Finds(codecs, d, late, m - 1, r1, c1)
                   else r1 == r && c1 == d;
    var s, e :| Steps(codecs, b, late, s, e)
                && if s.Got? && s.msg.offset < b.fetched then n > 0 && Finds(codecs, e, late, n - 1, r2, c2)
                   else r2 == s && c2 == e;
    StepsOnce(codecs, b, late, r, d, s, e);
    if r.Got? && r.msg.offset < b.fetched {
      FindsOnce(codecs, d, late, m - 1, r1, c1, n - 1, r2, c2);
    }
  }

  /** The replies to some calls, and what they leave, are determined by the bytes. */
  lemma {:induction false} CallsOnce(codecs: Registry, b: Batch, lates: seq<bool>, rs: seq<Batches.Reply>, c: Batch,
                                     qs: seq<Batches.Reply>, d: Batch)
    requires Calls(codecs, b, lates, rs, c) && Calls(codecs, b, lates, qs, d)
    ensures rs == qs && c == d
    decreases |lates|
  {
    hide Finds;
    if lates != [] {
      var m: nat, x :| Finds(codecs, b, lates[0], m, rs[0], x) && Calls(codecs, x, lates[1..], rs[1..], c);
      var n: nat, y :| Finds(codecs, b, lates[0], n, qs[0], y) && Calls(codecs, y, lates[1..], qs[1..], d);
      FindsOnce(codecs, b, lates[0], m, rs[0], x, n, qs[0], y);
      CallsOnce(codecs, x, lates[1..], rs[1..], c, qs[1..], d);
      assert rs == [rs[0]] + rs[1..] && qs == [qs[0]] + qs[1..];
    }
  }

  // ---------------------------------------------------------------------
  // Opening a batch
  // ---------------------------------------------------------------------

  function ReadFetch(v5: bool, s: Src): R<Responses.Fetched> {
    if v5 then Responses.ReadFetchV5(s) else Responses.ReadFetchV2(s)
  }

  const NO_HEADER := RecordBatch.BatchHeader(0, 0, 0, 0, 0, 0, 0, 0, 0, 0, 0, 0)

  /** The error of a batch that could not be opened: a short read is the deadline or an unexpected end. */
  function OpenError(e: Err, late: bool): Batches.Err {
    if e == ShortRead then (if late then Batches.TIMED_OUT else Batches.Other) else ErrOf(e)
  }

  /** ReadBatchWith from the response on: `s` is the response, `offset` what was asked for. */
  function Open(v5: bool, s: Src, offset: int, capacity: nat, late: bool): Batch {
    match ReadFetch(v5, s)
    case Fail(e, _) => Batch(offset, offset, OpenError(e, late), Nothing)
    case Ok(f, t) =>
      if f.watermark == offset then Batch(offset, offset, Batches.NoError, Nothing)
      else match FormatSelection.Select(t, capacity)
        case Fail(e, _) => Batch(offset, offset, OpenError(e, late), Nothing)
        case Ok(Old, _) => Batch(offset, offset, Batches.NoError, Old(MessageSet.State(t, false, [])))
        case Ok(New, _) =>
          Batch(offset, offset, Batches.NoError, New(RecordBatch.State([RecordBatch.Frame(t, capacity)], 0, NO_HEADER)))
  }

  /** The response has a header without error and a high water mark past `offset`, then `messages`. */
  ghost predicate Carries(v5: bool, s: Src, offset: int, messages: seq<byte>, rest: seq<byte>) {
    var r := ReadFetch(v5, s);
    r.Ok? && r.value.watermark != offset && r.rest == Src(messages + rest, |messages|)
  }

  /** The headers a broker sends are such headers. */
  lemma HeaderV2Carries(throttle: int, topic: seq<byte>, p: seq<int>, messages: seq<byte>, rest: seq<byte>, offset: int)
    requires |topic| < 0x8000 && Fits(4, throttle) && AllFit(Responses.FETCH_V2, p) && p[3] == |messages|
    requires p[1] == 0 && p[2] != offset
    ensures var head := Responses.PrefixBytes(throttle, topic) + Fields(Responses.FETCH_V2, p);
            Carries(false, Src(head + (messages + rest), |head| + |messages|), offset, messages, rest)
  {
    hide Responses.ReadFetchV2, Responses.PrefixBytes, Fields, Fits;
    Responses.FetchV2Leftover(throttle, topic, p, messages, rest);
  }

  lemma HeaderV5Carries(throttle: int, topic: seq<byte>, p: seq<int>, pairs: seq<seq<int>>, messages: seq<byte>,
                        rest: seq<byte>, offset: int)
    requires |topic| < 0x8000 && Fits(4, throttle) && AllFit(Responses.FETCH_V5, p) && |messages| < 0x8000_0000
    requires Responses.PairsFit(pairs) && |pairs| < 0x8000_0000 && p[1] == 0 && p[2] != offset
    ensures var head := Responses.PrefixBytes(throttle, topic)
            + (Fields(Responses.FETCH_V5, p) + Responses.AbortedBytes(pairs));
            Carries(true, Src(head + (Int32(|messages|) + (messages + rest)), |head| + 4 + |messages|), offset,
                    messages, rest)
  {
    hide Responses.ReadFetchV5, Responses.PrefixBytes, Responses.AbortedBytes, Fields, Fits;
    Responses.FetchV5Leftover(throttle, topic, p, pairs, messages, rest);
  }

  // ---------------------------------------------------------------------
  // From bytes to messages
  // ---------------------------------------------------------------------

  /** The batch over messages that stands for an open batch. */
  function ViewOf(format: Batches.Format, offset: int, ms: seq<Batches.Message>): Batches.View {
    Batches.View(format, offset, offset, Batches.NoError, ms, Batches.ShortRead, Batches.NoError)
  }

  /**
   A response with messages of format 0 or 1, plain or compressed, that may be
   cut off anywhere behind the first few bytes: whatever calls are made on the
   batch, they get exactly the messages that came in full and are at or past the
   offset asked for, in order, then one error for good, and the next offset is
   one past the last of them.
   */
  lemma OldFetch(codecs: Registry, v5: bool, s: Src, offset: int, items: seq<MessageSet.Item>, n: nat, rest: seq<byte>,
                 capacity: nat, late: bool, lates: seq<bool>) returns (c: Batch)
    requires MessageSetProofs.AllItems(codecs, items) && items != [] && capacity > FormatSelection.MAGIC
    requires FormatSelection.MAGIC < n <= |MessageSet.ItemsBytes(items)|
    requires Carries(v5, s, offset, MessageSet.ItemsBytes(items)[..n], rest)
    requires Batches.Ascending(Olds(MessageSetProofs.Flatten(items[..Truncation.Complete(items, n)], 0)))
    ensures var v := ViewOf(Batches.V1, offset,
                            Olds(MessageSetProofs.Flatten(items[..Truncation.Complete(items, n)], 0)));
            var (replies, _) := Batches.Calls(v, lates);
            && Calls(codecs, Open(v5, s, offset, capacity, late), lates, replies, c)
            && Batches.Delivered(v, lates) && c.offset == Batches.Resume(v, |lates|)
  {
    hide Calls, ReadFetch, MessageSet.ItemsBytes, MessageSetProofs.Flatten, MessageSetProofs.AllItems, Batches.Calls;
    hide MessageSetProofs.Serves, Batches.Resume, Batches.ReplyAt, Truncation.Complete, MessageSet.AsMessage;
    var fs := MessageSetProofs.Flatten(items[..Truncation.Complete(items, n)], 0);
    var v := ViewOf(Batches.V1, offset, Olds(fs));
    var b := Open(v5, s, offset, capacity, late);
    FirstMagic(codecs, items);
    FormatSelection.SelectsOld(items, n, rest, capacity);
    Truncation.OldCut(codecs, items, n, rest);
    assert OldHolds(codecs, b.reader.v1, fs, MessageSetProofs.End(rest) + Truncation.CutOff(rest));
    assert Matches(codecs, b, v);
    c := CallsMatch(codecs, b, v, lates);
    MatchesFetched(codecs, c, Batches.Calls(v, lates).1);
    Batches.CallsDeliver(v, lates);
  }

  lemma FirstMagic(codecs: Registry, items: seq<MessageSet.Item>)
    requires MessageSetProofs.AllItems(codecs, items) && items != []
    ensures MessageSet.AsMessage(items[0]).magic in {0, 1}
  {
    hide MessageSet.AsMessage;
    assert MessageSetProofs.WellFormedItem(codecs, items[0]);
  }

  /** The same for record batches, plain or compressed. */
  lemma NewFetch(codecs: Registry, v5: bool, s: Src, offset: int, bs: seq<RecordBatch.Batch>, n: nat, rest: seq<byte>,
                 capacity: nat, late: bool, lates: seq<bool>) returns (c: Batch)
    requires RecordBatchProofs.AllValid(codecs, capacity, bs) && bs != [] && capacity > FormatSelection.MAGIC
    requires FormatSelection.MAGIC < n <= |RecordBatch.BatchesBytes(bs)|
    requires Carries(v5, s, offset, RecordBatch.BatchesBytes(bs)[..n], rest)
    requires Batches.Ascending(News(CutBatches.PrefixGives(bs, n)))
    ensures var v := ViewOf(Batches.V2, offset, News(CutBatches.PrefixGives(bs, n)));
            var (replies, _) := Batches.Calls(v, lates);
            && Calls(codecs, Open(v5, s, offset, capacity, late), lates, replies, c)
            && Batches.Delivered(v, lates) && c.offset == Batches.Resume(v, |lates|)
  {
    hide Calls, ReadFetch, RecordBatch.BatchesBytes, CutBatches.PrefixGives, Batches.Calls, RecordBatchProofs.Serves;
    hide Batches.Resume, Batches.ReplyAt, RecordBatchProofs.Valid;
    var fs := CutBatches.PrefixGives(bs, n);
    var v := ViewOf(Batches.V2, offset, News(fs));
    var b := Open(v5, s, offset, capacity, late);
    FormatSelection.SelectsNew(bs, n, rest, capacity);
    CutBatches.NewCut(codecs, bs, n, rest, capacity, NO_HEADER);
    assert NewHolds(codecs, b.reader.v2, fs, CutBatches.Cutoff(rest, capacity));
    assert Matches(codecs, b, v);
    c := CallsMatch(codecs, b, v, lates);
    MatchesFetched(codecs, c, Batches.Calls(v, lates).1);
    Batches.CallsDeliver(v, lates);
  }

  /** Nothing is missing when all the bytes came. */
  lemma {:induction false} WholeOld(items: seq<MessageSet.Item>)
    ensures Truncation.Complete(items, |MessageSet.ItemsBytes(items)|) == |items|
    decreases |items|
  {
    hide MessageSet.ItemBytes;
    if items != [] {
      WholeOld(items[1..]);
    }
  }

  lemma {:induction false} WholeNew(bs: seq<RecordBatch.Batch>)
    requires RecordBatch.NonEmpty(bs)
    ensures CutBatches.PrefixGives(bs, |RecordBatch.BatchesBytes(bs)|) == RecordBatchProofs.ExpectedAll(bs)
    decreases |bs|
  {
    hide RecordBatch.BatchBytes, RecordBatchProofs.ExpectedFrom;
    if bs != [] {
      WholeNew(bs[1..]);
    }
  }

  /**
   A response cut off within the first seventeen bytes of its messages opens with
   an error and none of these bytes is read, now or by closing the batch.  Past
   the deadline the error is one that leaves the connection open.
   */
  lemma CutAtOpen(v5: bool, s: Src, offset: int, messages: seq<byte>, rest: seq<byte>, capacity: nat, late: bool)
    requires Carries(v5, s, offset, messages, rest) && |messages| <= FormatSelection.MAGIC
    ensures var b := Open(v5, s, offset, capacity, late);
            && b.reader == Nothing && Discarded(b.reader) == Nothing
            && b.err == if late then Batches.TIMED_OUT else Batches.Other
    ensures ReadFetch(v5, s).rest == Src(messages + rest, |messages|)
  {
    hide ReadFetch;
  }

  /**
   A batch that opens with an error, be it the broker's, a bad header or an
   unknown format: every call returns it, and the offset to resume from is the
   one asked for.
   */
  lemma FailedFetch(codecs: Registry, b: Batch, lates: seq<bool>)
    requires b.err != Batches.NoError
    ensures Calls(codecs, b, lates, seq(|lates|, _ => Batches.Failed(b.err)), b)
  {
    hide Calls;
    var v := Batches.View(Batches.V1, b.fetched, b.offset, b.err, [], Batches.ShortRead, Batches.NoError);
    assert Matches(codecs, b, v);
    var c := CallsMatch(codecs, b, v, lates);
    Batches.ErrorsAreSticky(v, lates);
    SameBatch(codecs, b, lates, Batches.Calls(v, lates).0, c);
  }

  lemma {:induction false} SameBatch(codecs: Registry, b: Batch, lates: seq<bool>, rs: seq<Batches.Reply>, c: Batch)
    requires b.err != Batches.NoError && Calls(codecs, b, lates, rs, c)
    ensures c == b
    decreases |lates|
  {
    if lates != [] {
      var n: nat, d :| Finds(codecs, b, lates[0], n, rs[0], d) && Calls(codecs, d, lates[1..], rs[1..], c);
      SameBatch(codecs, d, lates[1..], rs[1..], c);
    }
  }

  // ---------------------------------------------------------------------
  // Closing a batch
  // ---------------------------------------------------------------------

  /** An older reader that started on the connection at `start` and took bytes of the response only. */
  ghost predicate Within(r: Reader, start: Src) {
    r.Old? && MessageSet.Sound(r.v1) && Tail(start, r.v1.conn)
  }

  lemma ReadsWithin(codecs: Registry, r: Reader, min: int, reply: Batches.Reply, t: Reader, start: Src)
    requires Within(r, start) && Reads(codecs, r, min, reply, t)
    ensures Within(t, start)
  {
    hide MessageSet.Turns, MessageSet.Sound, Tail;
    var k: nat :| OldReply(MessageSet.Turns(codecs, r.v1, min, k), reply, t);
    MessageSet.TurnsConserve(codecs, r.v1, min, k);
    TailTransitive(start, r.v1.conn, t.v1.conn);
  }

  lemma DiscardWithin(r: Reader, start: Src)
    requires Within(r, start)
    ensures Within(Discarded(r), start)
    ensures start.remain <= |start.data| ==> Discarded(r).v1.conn == Src(start.data[start.remain..], 0)
  {
    hide DiscardN;
    var st := r.v1;
    DiscardNConserves(st.conn, st.conn.remain);
    TailTransitive(start, st.conn, DiscardN(st.conn, st.conn.remain).rest);
    AllDiscarded(st.conn);
    if start.remain <= |start.data| {
      assert st.conn.data[st.conn.remain..] == start.data[start.remain..];
    }
  }

  lemma AllDiscarded(s: Src)
    ensures s.remain <= |s.data| ==> DiscardN(s, s.remain).rest == Src(s.data[s.remain..], 0)
  {
  }

  lemma StepsWithin(codecs: Registry, b: Batch, late: bool, reply: Batches.Reply, c: Batch, start: Src)
    requires Within(b.reader, start) && Steps(codecs, b, late, reply, c)
    ensures Within(c.reader, start)
  {
    hide Within, Reads;
    if b.err == Batches.NoError {
      var r, t :| Reads(codecs, b.reader, b.offset, r, t) && Reacts(b, late, r, t, reply, c);
      ReadsWithin(codecs, b.reader, b.offset, r, t, start);
      DiscardWithin(t, start);
    }
  }

  lemma {:induction false} FindsWithin(codecs: Registry, b: Batch, late: bool, n: nat, reply: Batches.Reply, c: Batch,
                                       start: Src)
    requires Within(b.reader, start) && Finds(codecs, b, late, n, reply, c)
    ensures Within(c.reader, start)
    decreases n
  {
    hide Within, Steps;
    var r, d :| Steps(codecs, b, late, r, d)
                && if r.Got? && r.msg.offset < b.fetched then n > 0 && Finds(codecs, d, late, n - 1, reply, c)
                   else reply == r && c == d;
    StepsWithin(codecs, b, late, r, d, start);
    if r.Got? && r.msg.offset < b.fetched {
      FindsWithin(codecs, d, late, n - 1, reply, c, start);
    }
  }

  lemma {:induction false} CallsWithin(codecs: Registry, b: Batch, lates: seq<bool>, rs: seq<Batches.Reply>, c: Batch,
                                       start: Src)
    requires Within(b.reader, start) && Calls(codecs, b, lates, rs, c)
    ensures Within(c.reader, start)
    decreases |lates|
  {
    hide Within, Finds;
    if lates != [] {
      var n: nat, d :| Finds(codecs, b, lates[0], n, rs[0], d) && Calls(codecs, d, lates[1..], rs[1..], c);
      FindsWithin(codecs, b, lates[0], n, rs[0], d, start);
      CallsWithin(codecs, d, lates[1..], rs[1..], c, start);
    }
  }

  /**
   A batch over the older reader, opened on arbitrary bytes that are there:
   after any calls, closing it leaves the connection exactly behind the response.
   */
  lemma OldCloses(codecs: Registry, start: Src, b: Batch, lates: seq<bool>, rs: seq<Batches.Reply>, c: Batch)
    requires start.remain <= |start.data| && b.reader == Old(MessageSet.State(start, false, []))
    requires Calls(codecs, b, lates, rs, c)
    ensures c.reader.Old? && Discarded(c.reader).v1.conn == Src(start.data[start.remain..], 0)
  {
    hide Calls;
    CallsWithin(codecs, b, lates, rs, c, start);
    DiscardWithin(c.reader, start);
  }

  // ---------------------------------------------------------------------
  // Closing a batch of the newer format
  // ---------------------------------------------------------------------

  /** A newer reader that started as `st` and has since read `n` messages. */
  ghost predicate HasRead(codecs: Registry, st: RecordBatch.State, n: nat, r: Reader) {
    st.stack != [] && r == New(RecordBatchProofs.After(codecs, st, n)) && AllGot(codecs, st, n)
  }

  ghost predicate AllGot(codecs: Registry, st: RecordBatch.State, n: nat)
    requires st.stack != []
  {
    forall j :: 0 <= j < n ==> RecordBatch.ReadMessage(codecs, RecordBatchProofs.After(codecs, st, j)).Got?
  }

  /** One read more, or the end. */
  lemma ReadsMore(codecs: Registry, st: RecordBatch.State, n: nat, r: Reader, min: int, reply: Batches.Reply, t: Reader)
    requires HasRead(codecs, st, n, r) && Reads(codecs, r, min, reply, t) && reply.Got?
    ensures HasRead(codecs, st, n + 1, t)
    ensures RecordBatch.ReadMessage(codecs, r.v2).Got? && reply.msg == FromNew(RecordBatch.ReadMessage(codecs, r.v2).m)
  {
    hide RecordBatch.ReadMessage, RecordBatchProofs.After;
    RecordBatchProofs.AfterBatch(codecs, st, n, 1);
    OneAfter(codecs, r.v2);
  }

  lemma OneAfter(codecs: Registry, st: RecordBatch.State)
    requires st.stack != []
    ensures RecordBatchProofs.After(codecs, st, 1) == RecordBatch.ReadMessage(codecs, st).next
  {
    hide RecordBatch.ReadMessage;
    assert RecordBatchProofs.After(codecs, RecordBatch.ReadMessage(codecs, st).next, 0)
        == RecordBatch.ReadMessage(codecs, st).next;
  }

  /** After a call that returned a message the reader has read that message last. */
  ghost predicate LastRead(codecs: Registry, st: RecordBatch.State, n: nat, m: Batches.Message) {
    && n > 0 && st.stack != []
    && (var o := RecordBatch.ReadMessage(codecs, RecordBatchProofs.After(codecs, st, n - 1));
        o.Got? && m == FromNew(o.m))
  }

  /** A newer reader that came to the end of the response. */
  ghost predicate Ended(c: Batch, rest: seq<byte>) {
    c.err != Batches.NoError && c.reader.New? && |c.reader.v2.stack| == 1 && c.reader.v2.stack[0].src == Src(rest, 0)
  }

  /** An open batch after `n` reads, or one that ended. */
  ghost predicate Standing(codecs: Registry, st: RecordBatch.State, n: nat, c: Batch, rest: seq<byte>) {
    if c.err == Batches.NoError then HasRead(codecs, st, n, c.reader) else Ended(c, rest)
  }

  /** A read that fails does so at the end of what is served. */
  lemma {:induction false} AtEnd(codecs: Registry, st: RecordBatch.State, ms: seq<RecordBatch.Fetched>, rest: seq<byte>,
                                 capacity: nat, n: nat)
    requires RecordBatchProofs.Serves(codecs, st, ms, RecordBatchProofs.End(rest, capacity)) && AllGot(codecs, st, n)
    ensures var o := RecordBatch.ReadMessage(codecs, RecordBatchProofs.After(codecs, st, n));
            o.Failed? ==> o.err == ShortRead && o.next.stack == [RecordBatch.Frame(Src(rest, 0), capacity)]
    decreases n
  {
    hide RecordBatch.ReadMessage;
    if n > 0 {
      assert RecordBatchProofs.After(codecs, st, 0) == st;
      var t := RecordBatch.ReadMessage(codecs, st).next;
      forall j | 0 <= j < n - 1
        ensures RecordBatch.ReadMessage(codecs, RecordBatchProofs.After(codecs, t, j)).Got?
      {
        assert RecordBatchProofs.After(codecs, st, j + 1) == RecordBatchProofs.After(codecs, t, j);
      }
      AtEnd(codecs, t, ms[1..], rest, capacity, n - 1);
    }
  }

  lemma StepStands(codecs: Registry, st: RecordBatch.State, ms: seq<RecordBatch.Fetched>, rest: seq<byte>,
                   capacity: nat, n: nat, b: Batch, late: bool, reply: Batches.Reply, c: Batch)
    requires RecordBatchProofs.Serves(codecs, st, ms, RecordBatchProofs.End(rest, capacity))
    requires Standing(codecs, st, n, b, rest) && Steps(codecs, b, late, reply, c)
    ensures Standing(codecs, st, if reply.Got? then n + 1 else n, c, rest)
    ensures c.err == Batches.NoError <==> reply.Got?
    ensures reply.Got? ==> LastRead(codecs, st, n + 1, reply.msg)
  {
    hide RecordBatch.ReadMessage, RecordBatchProofs.After, RecordBatchProofs.Serves;
    if b.err == Batches.NoError {
      var r, t :| Reads(codecs, b.reader, b.offset, r, t) && Reacts(b, late, r, t, reply, c);
      if r.Got? {
        ReadsMore(codecs, st, n, b.reader, b.offset, r, t);
      } else {
        AtEnd(codecs, st, ms, rest, capacity, n);
      }
    }
  }

  lemma {:induction false} FindStands(codecs: Registry, st: RecordBatch.State, ms: seq<RecordBatch.Fetched>,
                                      rest: seq<byte>, capacity: nat, n: nat, b: Batch, late: bool, k: nat,
                                      reply: Batches.Reply, c: Batch)
    returns (m: nat)
    requires RecordBatchProofs.Serves(codecs, st, ms, RecordBatchProofs.End(rest, capacity))
    requires Standing(codecs, st, n, b, rest) && Finds(codecs, b, late, k, reply, c)
    ensures Standing(codecs, st, m, c, rest) && (c.err == Batches.NoError <==> reply.Got?)
    ensures reply.Got? ==> LastRead(codecs, st, m, reply.msg)
    decreases k
  {
    hide Steps, Standing, LastRead, RecordBatchProofs.Serves;
    var r, d :| Steps(codecs, b, late, r, d)
                && if r.Got? && r.msg.offset < b.fetched then k > 0 && Finds(codecs, d, late, k - 1, reply, c)
                   else reply == r && c == d;
    StepStands(codecs, st, ms, rest, capacity, n, b, late, r, d);
    m := if r.Got? then n + 1 else n;
    if r.Got? && r.msg.offset < b.fetched {
      m := FindStands(codecs, st, ms, rest, capacity, m, d, late, k - 1, reply, c);
    }
  }

  lemma {:induction false} CallsStand(codecs: Registry, st: RecordBatch.State, ms: seq<RecordBatch.Fetched>,
                                      rest: seq<byte>, capacity: nat, n: nat, b: Batch, lates: seq<bool>,
                                      rs: seq<Batches.Reply>, c: Batch)
    returns (m: nat)
    requires RecordBatchProofs.Serves(codecs, st, ms, RecordBatchProofs.End(rest, capacity))
    requires Standing(codecs, st, n, b, rest) && Calls(codecs, b, lates, rs, c)
    ensures Standing(codecs, st, m, c, rest) && |rs| == |lates|
    ensures lates == [] ==> m == n && c == b
    ensures c.err == Batches.NoError && rs != [] ==> rs[|rs| - 1].Got? && LastRead(codecs, st, m, rs[|rs| - 1].msg)
    decreases |lates|
  {
    hide Finds, Standing, LastRead, RecordBatchProofs.Serves;
    m := n;
    if lates != [] {
      var k: nat, d :| Finds(codecs, b, lates[0], k, rs[0], d) && Calls(codecs, d, lates[1..], rs[1..], c);
      var m' := FindStands(codecs, st, ms, rest, capacity, n, b, lates[0], k, rs[0], d);
      m := CallsStand(codecs, st, ms, rest, capacity, m', d, lates[1..], rs[1..], c);
    }
  }

  /** The connection after a batch is closed. */
  function Behind(r: Reader): Src
    requires r.New? && r.v2.stack != []
  {
    RecordBatch.Discard(r.v2).stack[0].src
  }

  /**
   A batch over record batches, after any calls: closing it leaves nothing of the
   response exactly when the batch has ended, nothing was read, or the record
   batch of the message returned last is plain or the last one of the response.
   */
  lemma NewCloses(codecs: Registry, bs: seq<RecordBatch.Batch>, rest: seq<byte>, capacity: nat, b: Batch,
                  lates: seq<bool>, rs: seq<Batches.Reply>, c: Batch) returns (k: nat)
    requires RecordBatchProofs.AllValid(codecs, capacity, bs) && b.err == Batches.NoError
    requires b.reader == New(RecordBatchProofs.AtResponse(bs, rest, capacity, NO_HEADER))
    requires Calls(codecs, b, lates, rs, c)
    ensures |rs| == |lates| && c.reader.New? && c.reader.v2.stack != []
    ensures c.err != Batches.NoError || lates == [] ==> Behind(c.reader) == Src(rest, 0)
    ensures c.err == Batches.NoError && lates != [] ==>
              && 0 < k <= |RecordBatchProofs.ExpectedAll(bs)|
              && rs[|rs| - 1] == Batches.Got(FromNew(RecordBatchProofs.ExpectedAll(bs)[k - 1]))
              && RecordBatchProofs.Located(bs, k, RecordBatchProofs.BatchOf(bs, k))
              && (Behind(c.reader).remain == 0
                  <==> bs[RecordBatchProofs.BatchOf(bs, k)].codec.None? || RecordBatchProofs.BatchOf(bs, k) + 1 == |bs|)
  {
    hide Calls, LastRead, RecordBatchProofs.Valid, RecordBatch.BatchesBytes, RecordBatchProofs.ExpectedAll;
    hide RecordBatchProofs.After, RecordBatchProofs.LeavesBehind, RecordBatchProofs.Located, RecordBatchProofs.Serves;
    var st, ms := RecordBatchProofs.AtResponse(bs, rest, capacity, NO_HEADER), RecordBatchProofs.ExpectedAll(bs);
    NoneRead(codecs, st);
    RecordBatchProofs.Served(codecs, bs, rest, capacity, NO_HEADER);
    k := CallsStand(codecs, st, ms, rest, capacity, 0, b, lates, rs, c);
    if c.err == Batches.NoError && lates != [] {
      ReadAs(codecs, st, k, c.reader);
      LastIs(codecs, st, ms, RecordBatchProofs.End(rest, capacity), k, rs[|rs| - 1].msg);
      RecordBatchProofs.TotalIs(bs);
      RecordBatchProofs.DiscardLeavesIff(codecs, bs, rest, capacity, NO_HEADER, k);
    } else if lates == [] {
      var x := RecordBatch.BatchesBytes(bs);
      assert (x + rest)[|x|..] == rest;
    }
  }

  lemma ReadAs(codecs: Registry, st: RecordBatch.State, n: nat, r: Reader)
    requires HasRead(codecs, st, n, r)
    ensures st.stack != [] && r == New(RecordBatchProofs.After(codecs, st, n)) && AllGot(codecs, st, n)
  {
  }

  lemma NoneRead(codecs: Registry, st: RecordBatch.State)
    requires st.stack != []
    ensures HasRead(codecs, st, 0, New(st))
  {
  }

  /** The message read last is the one at that place. */
  lemma {:induction false} LastIs(codecs: Registry, st: RecordBatch.State, ms: seq<RecordBatch.Fetched>,
                                  ends: iset<seq<RecordBatch.Frame>>, k: nat, m: Batches.Message)
    requires RecordBatchProofs.Serves(codecs, st, ms, ends) && LastRead(codecs, st, k, m) && AllGot(codecs, st, k)
    ensures 0 < k <= |ms| && m == FromNew(ms[k - 1])
    decreases k
  {
    hide RecordBatch.ReadMessage;
    assert RecordBatchProofs.After(codecs, st, 0) == st;
    var t := RecordBatch.ReadMessage(codecs, st).next;
    forall j | 0 <= j < k - 1
      ensures RecordBatch.ReadMessage(codecs, RecordBatchProofs.After(codecs, t, j)).Got?
    {
      assert RecordBatchProofs.After(codecs, st, j + 1) == RecordBatchProofs.After(codecs, t, j);
    }
    if k > 1 {
      LastIs(codecs, t, ms[1..], ends, k - 1, m);
    }
  }
}
