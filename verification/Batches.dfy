/**
 Reading the messages of a fetch response through a Batch (batch.go), and the
 offset at which the connection resumes (conn.go).  What the message set reader
 still has to give is a sequence; the older message format filters it by the
 batch's own offset, the newer one does not.
 */
module Batches {
  import Wire
  import RecordBatch

  datatype Err =
    | NoError
    | ShortRead          // the response was truncated or is used up
    | EOF
    | ShortBuffer        // the value does not fit the buffer given to Read
    | Broker(code: int)  // an Error value; 7 is RequestTimedOut
    | Other

  const TIMED_OUT := Broker(7)

  datatype Format = V1 | V2

  datatype Message = Message(offset: int, timestamp: int, key: Wire.Slice, value: Wire.Slice,
                             headers: seq<RecordBatch.Header>)

  datatype Reply = Got(msg: Message) | Failed(error: Err)

  /**
   The fields of an open batch: the offset the connection fetched from, the next
   offset, the sticky error, and the source: what is left, what comes after it
   and what discarding the rest of the response returns.
   */
  datatype View = View(
    format: Format, fetched: int, offset: int, err: Err, left: seq<Message>, ending: Err, discards: Err)

  /** messageSetReader.readMessage: the older format passes over messages below `min`. */
  function Pass(format: Format, min: int, left: seq<Message>): seq<Message>
    decreases |left|
  {
    if format.V1? && left != [] && left[0].offset < min then Pass(format, min, left[1..]) else left
  }

  /** The error that ends a batch; `late` says whether the deadline has passed. */
  function Last(v: View, late: bool): Err {
    if v.ending != ShortRead then v.ending
    else if v.discards != NoError then v.discards
    else if late then TIMED_OUT
    else EOF
  }

  /** Batch.readMessage. */
  function Step(v: View, late: bool): (Reply, View) {
    if v.err != NoError then (Failed(v.err), v)
    else
      var left := Pass(v.format, v.offset, v.left);
      if left == [] then
        var e := Last(v, late);
        (Failed(e), v.(left := [], err := e))
      else (Got(left[0]), v.(left := left[1..], offset := left[0].offset + 1))
  }

  /** Batch.ReadMessage on an open batch: skips what is below the fetch offset. */
  function Read(v: View, late: bool): (Reply, View)
    decreases |v.left|, v.err == NoError
  {
    var (r, w) := Step(v, late);
    if r.Got? && r.msg.offset < v.fetched then
      PassSuffix(v.format, v.offset, v.left);
      Read(w, late)
    else (r, w)
  }

  lemma {:induction false} PassSuffix(format: Format, min: int, left: seq<Message>)
    ensures var p := Pass(format, min, left);
            |p| <= |left| && p == left[|left| - |p|..]
    decreases |left|
  {
    if format.V1? && left != [] && left[0].offset < min {
      PassSuffix(format, min, left[1..]);
    }
  }

  // ---------------------------------------------------------------------
  // What one call returns
  // ---------------------------------------------------------------------

  ghost predicate Ascending(ms: seq<Message>) {
    forall i, j :: 0 <= i < j < |ms| ==> ms[i].offset < ms[j].offset
  }

  /** The messages that the caller is to see. */
  function Wanted(ms: seq<Message>, from: int): seq<Message>
    decreases |ms|
  {
    if ms == [] then []
    else if ms[0].offset >= from then [ms[0]] + Wanted(ms[1..], from)
    else Wanted(ms[1..], from)
  }

  /** A batch as ReadBatch makes it, and after any calls that delivered messages. */
  ghost predicate Ready(v: View) {
    && v.ending != NoError
    && v.err == NoError
    && Ascending(v.left)
    && (v.format.V1? ==>
          v.fetched <= v.offset && (v.offset == v.fetched || v.left == [] || v.offset <= v.left[0].offset))
  }

  lemma {:induction false} PassWanted(format: Format, min: int, left: seq<Message>)
    requires Ascending(left)
    ensures var p := Pass(format, min, left);
            && Ascending(p)
            && Wanted(p, min) == Wanted(left, min)
            && (format.V1? && p != [] ==> p[0].offset >= min)
    decreases |left|
  {
    if format.V1? && left != [] && left[0].offset < min {
      PassWanted(format, min, left[1..]);
    }
  }

  /** Of an ascending sequence whose first message is wanted, all are. */
  lemma {:induction false} AllWanted(ms: seq<Message>, from: int)
    requires Ascending(ms) && (ms != [] ==> ms[0].offset >= from)
    ensures Wanted(ms, from) == ms
    decreases |ms|
  {
    if ms != [] {
      AllWanted(ms[1..], from);
    }
  }

  /** The next offset once the source is used up. */
  function Exhausted(v: View): int {
    if v.format.V1? || v.left == [] then v.offset else v.left[|v.left| - 1].offset + 1
  }

  /** One call returns the next wanted message, or, when there is none, the error that ends the batch. */
  ghost predicate Reads(v: View, late: bool) {
    var (r, w) := Read(v, late);
    var wanted := Wanted(v.left, v.fetched);
    if wanted == [] then
      r == Failed(Last(v, late)) && w == v.(left := [], err := Last(v, late), offset := Exhausted(v))
    else
      && r == Got(wanted[0])
      && w == v.(left := wanted[1..], offset := wanted[0].offset + 1)
      && Ready(w)
      && Wanted(w.left, v.fetched) == w.left
  }

  /** A call that steps to a suffix of what is left, all of it wanted. */
  lemma Delivers(v: View, late: bool, p: seq<Message>)
    requires Ready(v) && p != [] && |p| <= |v.left| && p == v.left[|v.left| - |p|..]
    requires Pass(v.format, v.offset, v.left) == p
    requires p[0].offset >= v.fetched && Wanted(v.left, v.fetched) == p
    ensures Reads(v, late)
  {
    hide Pass, Wanted;
    var w := v.(left := p[1..], offset := p[0].offset + 1);
    assert Read(v, late) == (Got(p[0]), w);
    assert Ready(w);
    AllWanted(p[1..], v.fetched);
  }

  lemma ReadsV1(v: View, late: bool)
    requires Ready(v) && v.format.V1?
    ensures Reads(v, late)
  {
    hide Pass, Wanted, Read, Reads;
    var p := Pass(v.format, v.offset, v.left);
    PassWanted(v.format, v.offset, v.left);
    PassSuffix(v.format, v.offset, v.left);
    assert Wanted(v.left, v.fetched) == p by {
      if v.offset != v.fetched {
        AllWanted(v.left, v.fetched);
        AllWanted(v.left, v.offset);
      }
      AllWanted(p, v.offset);
    }
    if p != [] {
      Delivers(v, late, p);
    } else {
      Ends(v, late);
    }
  }

  lemma Ends(v: View, late: bool)
    requires v.err == NoError && Pass(v.format, v.offset, v.left) == [] && Wanted(v.left, v.fetched) == []
    requires v.format.V1? || v.left == []
    ensures Reads(v, late)
  {
    hide Pass, Wanted;
  }

  lemma {:induction false} ReadsV2(v: View, late: bool)
    requires Ready(v) && v.format.V2?
    ensures Reads(v, late)
    decreases |v.left|
  {
    hide Reads, Read;
    assert Pass(v.format, v.offset, v.left) == v.left;
    if v.left == [] {
      Ends(v, late);
    } else if v.left[0].offset >= v.fetched {
      AllWanted(v.left, v.fetched);
      Delivers(v, late, v.left);
    } else {
      ReadsV2(v.(left := v.left[1..], offset := v.left[0].offset + 1), late);
      Skips(v, late);
    }
  }

  lemma Skips(v: View, late: bool)
    requires Ready(v) && v.format.V2? && v.left != [] && v.left[0].offset < v.fetched
    requires Reads(v.(left := v.left[1..], offset := v.left[0].offset + 1), late)
    ensures Reads(v, late)
  {
    hide Ascending, Read, Wanted, Pass;
    SkipFacts(v, late);
  }

  lemma SkipFacts(v: View, late: bool)
    requires v.err == NoError && v.format.V2? && v.left != [] && v.left[0].offset < v.fetched
    ensures var u := v.(left := v.left[1..], offset := v.left[0].offset + 1);
            && Read(v, late) == Read(u, late)
            && Wanted(v.left, v.fetched) == Wanted(u.left, v.fetched)
            && Exhausted(v) == Exhausted(u)
  {
    hide Ready, Wanted;
    var u := v.(left := v.left[1..], offset := v.left[0].offset + 1);
    WantedSkips(v.left, v.fetched);
    assert u.left != [] ==> u.left[|u.left| - 1] == v.left[|v.left| - 1];
  }

  lemma WantedSkips(ms: seq<Message>, from: int)
    requires ms != [] && ms[0].offset < from
    ensures Wanted(ms, from) == Wanted(ms[1..], from)
  {
  }

  lemma ReadsNext(v: View, late: bool)
    requires Ready(v)
    ensures Reads(v, late)
  {
    hide Reads, Ready;
    if v.format.V1? {
      ReadsV1(v, late);
    } else {
      ReadsV2(v, late);
    }
  }

  // ---------------------------------------------------------------------
  // Any number of calls, and the resume point
  // ---------------------------------------------------------------------

  /** Successive calls of ReadMessage on one batch. */
  function Calls(v: View, lates: seq<bool>): (seq<Reply>, View)
    decreases |lates|
  {
    if lates == [] then ([], v)
    else
      var (r, w) := Read(v, lates[0]);
      var (rs, u) := Calls(w, lates[1..]);
      ([r] + rs, u)
  }

  /** Once a call failed, every later call fails with the same error and changes nothing. */
  lemma {:induction false} ErrorsAreSticky(v: View, lates: seq<bool>)
    requires v.err != NoError
    ensures Calls(v, lates) == (seq(|lates|, _ => Failed(v.err)), v)
    decreases |lates|
  {
    if lates == [] {
      assert seq(|lates|, _ => Failed(v.err)) == [];
    } else {
      ErrorsAreSticky(v, lates[1..]);
      var k := |lates| - 1;
      assert seq(k + 1, _ => Failed(v.err)) == [Failed(v.err)] + seq(k, _ => Failed(v.err));
    }
  }

  /** The offset that close publishes after k calls. */
  function Resume(v: View, k: nat): int {
    var wanted := Wanted(v.left, v.fetched);
    if k == 0 then v.offset
    else if wanted == [] then Exhausted(v)
    else if k <= |wanted| then wanted[k - 1].offset + 1
    else wanted[|wanted| - 1].offset + 1
  }

  function ReplyAt(v: View, lates: seq<bool>, i: nat): Reply
    requires i < |lates|
  {
    var wanted := Wanted(v.left, v.fetched);
    if i < |wanted| then Got(wanted[i]) else Failed(Last(v, lates[|wanted|]))
  }

  ghost predicate Delivered(v: View, lates: seq<bool>) {
    var (rs, u) := Calls(v, lates);
    && |rs| == |lates|
    && (forall i :: 0 <= i < |rs| ==> rs[i] == ReplyAt(v, lates, i))
    && u.offset == Resume(v, |lates|)
  }

  /**
   Whatever the response holds and however many calls are made: the calls return
   the messages at or past the fetch offset, in order, then one error for good,
   and the offset is one past the last message returned.
   */
  lemma {:induction false} CallsDeliver(v: View, lates: seq<bool>)
    requires Ready(v)
    ensures Delivered(v, lates)
    decreases |lates|
  {
    hide Read, Wanted, Ascending, Last, ReplyAt, Delivered;
    if lates == [] {
      DeliversNothing(v);
    } else {
      ReadsNext(v, lates[0]);
      if Wanted(v.left, v.fetched) == [] {
        FailsAtOnce(v, lates);
      } else {
        CallsDeliver(Read(v, lates[0]).1, lates[1..]);
        DeliversFirst(v, lates);
      }
    }
  }

  lemma DeliversNothing(v: View)
    ensures Delivered(v, [])
  {
  }

  lemma FailsAtOnce(v: View, lates: seq<bool>)
    requires v.ending != NoError && v.err == NoError && lates != []
    requires Wanted(v.left, v.fetched) == [] && Reads(v, lates[0])
    ensures Delivered(v, lates)
  {
    hide Read, Wanted;
    var w := Read(v, lates[0]).1;
    ErrorsAreSticky(w, lates[1..]);
  }

  /** After the first message, the rest of a batch is a batch of the rest. */
  lemma Shift(v: View, w: View, lates: seq<bool>, i: nat)
    requires i + 1 < |lates| && Wanted(v.left, v.fetched) != []
    requires w == v.(left := Wanted(v.left, v.fetched)[1..], offset := Wanted(v.left, v.fetched)[0].offset + 1)
    requires Wanted(w.left, v.fetched) == w.left
    ensures ReplyAt(w, lates[1..], i) == ReplyAt(v, lates, i + 1)
  {
    hide Wanted;
  }

  lemma DeliversFirst(v: View, lates: seq<bool>)
    requires Ready(v) && lates != [] && Wanted(v.left, v.fetched) != [] && Reads(v, lates[0])
    requires Delivered(Read(v, lates[0]).1, lates[1..])
    ensures Delivered(v, lates)
  {
    hide Read, Wanted, Ready, Last, ReplyAt;
    var (r, w) := Read(v, lates[0]);
    var (rs, u) := Calls(w, lates[1..]);
    assert Calls(v, lates) == ([r] + rs, u);
    forall i | 0 <= i < |lates|
      ensures ([r] + rs)[i] == ReplyAt(v, lates, i)
    {
      if i > 0 {
        Shift(v, w, lates, i - 1);
      } else {
        FirstReply(v, lates);
      }
    }
    assert Resume(w, |lates| - 1) == Resume(v, |lates|);
  }

  lemma FirstReply(v: View, lates: seq<bool>)
    requires lates != [] && Wanted(v.left, v.fetched) != []
    ensures ReplyAt(v, lates, 0) == Got(Wanted(v.left, v.fetched)[0])
  {
  }

  /**
   The published offset falls below the fetch offset exactly when a response in
   the newer format ends before the offset asked for.
   */
  lemma ResumesBelowIff(v: View, lates: seq<bool>)
    requires Ready(v) && v.offset == v.fetched
    ensures Calls(v, lates).1.offset < v.fetched <==>
            lates != [] && v.format.V2? && v.left != [] && v.left[|v.left| - 1].offset + 1 < v.fetched
  {
    hide Calls, Wanted, ReplyAt;
    CallsDeliver(v, lates);
    WantedBounds(v.left, v.fetched);
    if Wanted(v.left, v.fetched) != [] {
      LastIsWanted(v.left, v.fetched);
    }
  }

  lemma LastIsWanted(ms: seq<Message>, from: int)
    requires Ascending(ms) && Wanted(ms, from) != []
    ensures ms != [] && ms[|ms| - 1].offset >= from
  {
    hide Wanted;
    WantedBounds(ms, from);
    assert Wanted(ms, from)[0] in ms;
  }

  lemma {:induction false} WantedBounds(ms: seq<Message>, from: int)
    ensures forall i :: 0 <= i < |Wanted(ms, from)| ==> Wanted(ms, from)[i].offset >= from
    ensures ms != [] && ms[|ms| - 1].offset >= from ==> Wanted(ms, from) != []
    ensures forall i :: 0 <= i < |Wanted(ms, from)| ==> Wanted(ms, from)[i] in ms
    decreases |ms|
  {
    if ms != [] {
      WantedBounds(ms[1..], from);
    }
  }

  // ---------------------------------------------------------------------
  // Successive fetches on one connection
  // ---------------------------------------------------------------------

  /**
   A fetch: the error with which the batch opens, if any, what the broker
   returns, and the calls made on the batch before it is closed.
   */
  datatype Fetch = Fetch(format: Format, opens: Err, messages: seq<Message>, ending: Err, discards: Err,
                         lates: seq<bool>)

  /** ReadBatch at `offset`. */
  function Open(offset: int, f: Fetch): View {
    View(f.format, offset, offset, f.opens, f.messages, f.ending, f.discards)
  }

  function Messages(rs: seq<Reply>): seq<Message>
    decreases |rs|
  {
    if rs == [] then []
    else if rs[0].Got? then [rs[0].msg] + Messages(rs[1..])
    else Messages(rs[1..])
  }

  /** The messages delivered by a series of fetches, and the offset of the connection after them. */
  function Session(offset: int, fetches: seq<Fetch>): (seq<Message>, int)
    decreases |fetches|
  {
    if fetches == [] then ([], offset)
    else
      var (rs, u) := Calls(Open(offset, fetches[0]), fetches[0].lates);
      var (ms, end) := Session(u.offset, fetches[1..]);
      (Messages(rs) + ms, end)
  }

  /** Unless the batch opens with an error: ascending, and in the newer format not ended before the offset asked for. */
  ghost predicate Reaches(offset: int, f: Fetch) {
    f.opens == NoError ==>
    && f.ending != NoError
    && Ascending(f.messages)
    && (f.format.V2? && f.messages != [] ==> f.messages[|f.messages| - 1].offset + 1 >= offset)
  }

  ghost predicate AllReach(offset: int, fetches: seq<Fetch>)
    decreases |fetches|
  {
    fetches == [] ||
    (Reaches(offset, fetches[0]) &&
     AllReach(Calls(Open(offset, fetches[0]), fetches[0].lates).1.offset, fetches[1..]))
  }

  /** Messages delivered in strictly increasing order from `from` on, after which reading resumes at `end`. */
  ghost predicate InOrder(ms: seq<Message>, from: int, end: int) {
    && Ascending(ms)
    && (ms != [] ==> from <= ms[0].offset)
    && end == if ms == [] then from else ms[|ms| - 1].offset + 1
  }

  lemma {:induction false} MessagesOf(rs: seq<Reply>, wanted: seq<Message>, m: nat)
    requires m <= |rs| && m <= |wanted|
    requires forall i :: 0 <= i < |rs| ==> if i < m then rs[i] == Got(wanted[i]) else rs[i].Failed?
    ensures Messages(rs) == wanted[..m]
    decreases |rs|
  {
    if rs != [] {
      if m > 0 {
        MessagesOf(rs[1..], wanted[1..], m - 1);
        assert wanted[..m] == [wanted[0]] + wanted[1..][..m - 1];
      } else {
        MessagesOf(rs[1..], wanted, 0);
      }
    }
  }

  lemma {:induction false} WantedAscends(ms: seq<Message>, from: int)
    requires Ascending(ms)
    ensures Ascending(Wanted(ms, from))
    decreases |ms|
  {
    if ms != [] {
      WantedAscends(ms[1..], from);
      WantedBounds(ms[1..], from);
    }
  }

  lemma FetchInOrder(offset: int, f: Fetch)
    requires Reaches(offset, f)
    ensures var (rs, u) := Calls(Open(offset, f), f.lates);
            InOrder(Messages(rs), offset, u.offset)
  {
    hide Calls, Wanted, Messages;
    if f.opens != NoError {
      ErrorsAreSticky(Open(offset, f), f.lates);
      MessagesOf(Calls(Open(offset, f), f.lates).0, [], 0);
      return;
    }
    var v, k := Open(offset, f), |f.lates|;
    var wanted := Wanted(f.messages, offset);
    CallsDeliver(v, f.lates);
    WantedAscends(f.messages, offset);
    WantedBounds(f.messages, offset);
    MessagesOf(Calls(v, f.lates).0, wanted, if k <= |wanted| then k else |wanted|);
    ResumesBelowIff(v, f.lates);
  }

  lemma Joins(a: seq<Message>, from: int, mid: int, b: seq<Message>, end: int)
    requires InOrder(a, from, mid) && InOrder(b, mid, end)
    ensures InOrder(a + b, from, end)
  {
    var ab := a + b;
    if a != [] {
      forall i, j | 0 <= i < j < |ab|
        ensures ab[i].offset < ab[j].offset
      {
        if i < |a| <= j {
          assert a[i].offset <= a[|a| - 1].offset;
          assert b[0].offset <= b[j - |a|].offset;
        }
      }
    } else {
      assert ab == b;
    }
  }

  /**
   Over any series of fetches whose responses ascend and do not end before the
   offset asked for: the messages delivered are at or past the first offset and
   strictly increase across fetches, and the connection resumes one past the
   last of them.
   */
  lemma {:induction false} SessionInOrder(offset: int, fetches: seq<Fetch>)
    requires AllReach(offset, fetches)
    ensures InOrder(Session(offset, fetches).0, offset, Session(offset, fetches).1)
    decreases |fetches|
  {
    hide Calls, Messages, Reaches, InOrder;
    if fetches == [] {
      NoneInOrder(offset);
    } else {
      var (rs, u) := Calls(Open(offset, fetches[0]), fetches[0].lates);
      var (ms, end) := Session(u.offset, fetches[1..]);
      FetchInOrder(offset, fetches[0]);
      SessionInOrder(u.offset, fetches[1..]);
      Joins(Messages(rs), offset, u.offset, ms, end);
    }
  }

  lemma NoneInOrder(offset: int)
    ensures InOrder([], offset, offset)
  {
  }

  /** A fetch that brings one message and is read once. */
  function Single(m: Message): Fetch {
    Fetch(V2, NoError, [m], EOF, NoError, [false])
  }

  /** A response that does end before the offset asked for makes the next fetch deliver messages below it. */
  lemma Redelivers(offset: int, f: Fetch, m: Message)
    requires f.opens == NoError && f.ending != NoError && Ascending(f.messages) && f.format.V2? && f.messages != []
    requires f.lates != [] && m.offset == f.messages[|f.messages| - 1].offset + 1 < offset
    ensures Session(offset, [f, Single(m)]).0 == [m]
  {
    hide Calls, Wanted, Messages, ReplyAt;
    var v, g := Open(offset, f), Single(m);
    CallsDeliver(v, f.lates);
    assert Wanted(f.messages, offset) == [] by {
      if Wanted(f.messages, offset) != [] {
        LastIsWanted(f.messages, offset);
      }
    }
    AllFail(v, f.lates);
    MessagesOf(Calls(v, f.lates).0, [], 0);
    OneMessage(m);
    assert [f, g][1..] == [g] && [g][1..] == [];
    assert Session(m.offset, [g]).0 == Messages(Calls(Open(m.offset, g), g.lates).0) + [];
    assert Session(offset, [f, g]).0 == [] + Session(m.offset, [g]).0;
  }

  lemma AllFail(v: View, lates: seq<bool>)
    requires Delivered(v, lates) && Wanted(v.left, v.fetched) == []
    ensures forall r :: r in Calls(v, lates).0 ==> r.Failed?
  {
    hide Calls, Wanted;
  }

  lemma OneMessage(m: Message)
    ensures Messages(Calls(Open(m.offset, Single(m)), [false]).0) == [m]
  {
    var v := Open(m.offset, Single(m));
    var (r, w) := Read(v, false);
    assert r == Got(m);
    assert Calls(v, [false]) == ([r] + [], w);
    assert [r] + [] == [r] && Messages([r]) == [m] + Messages([r][1..]);
  }

  // ---------------------------------------------------------------------
  // The objects
  // ---------------------------------------------------------------------

  const FIRST_OFFSET := -2
  const LAST_OFFSET := -1
  const OUT_OF_RANGE := Broker(1)

  datatype Whence = SeekStart | SeekAbsolute | SeekEnd | SeekCurrent

  /** What ReadOffsets returns: the range of offsets of the partition, or an error. */
  datatype Bounds = Found(first: int, last: int) | Missing(error: Failure)

  type Failure = e: Err | e != NoError witness Other

  /** What a batch uses of its connection. */
  class Conn {
    var offset: int
    var closed: bool
    var locked: bool

    constructor (offset: int)
      ensures this.offset == offset && !closed && !locked
    {
      this.offset, closed, locked := offset, false, false;
    }

    /** Conn.Offset. */
    method Offset() returns (offset: int, whence: Whence)
      ensures offset == if this.offset in {FIRST_OFFSET, LAST_OFFSET} then 0 else this.offset
      ensures whence == if this.offset == FIRST_OFFSET then SeekStart
                        else if this.offset == LAST_OFFSET then SeekEnd
                        else SeekAbsolute
    {
      offset := this.offset;
      if offset == FIRST_OFFSET {
        return 0, SeekStart;
      } else if offset == LAST_OFFSET {
        return 0, SeekEnd;
      }
      whence := SeekAbsolute;
    }

    /** Conn.Seek, given what ReadOffsets would return: on success the connection is at the offset returned. */
    method Seek(target: int, whence: Whence, bounds: Bounds) returns (offset: int, err: Err)
      modifies this`offset
      ensures err == NoError ==> this.offset == offset
      ensures err != NoError ==> this.offset == old(this.offset) && offset == 0
      ensures err != NoError ==> err == if bounds.Missing? then bounds.error else OUT_OF_RANGE
      ensures err == NoError && whence == SeekAbsolute ==> offset == target
      ensures err == NoError && whence == SeekCurrent ==> offset == old(this.offset) + target
      ensures err == NoError && whence == SeekStart ==> bounds.Found? && offset == bounds.first + target
      ensures err == NoError && whence == SeekEnd ==> bounds.Found? && offset == bounds.last - target
      ensures err == NoError <==>
              match whence
              case SeekAbsolute =>
                target == old(this.offset) || (bounds.Found? && bounds.first <= target <= bounds.last)
              case SeekCurrent => bounds.Found? && bounds.first <= old(this.offset) + target <= bounds.last
              case SeekStart => bounds.Found? && 0 <= target <= bounds.last - bounds.first
              case SeekEnd => bounds.Found? && 0 <= target <= bounds.last - bounds.first
    {
      offset := target;
      if whence == SeekAbsolute && offset == this.offset {
        return offset, NoError;
      }
      if whence == SeekCurrent {
        offset := this.offset + offset;
      }
      if bounds.Missing? {
        return 0, bounds.error;
      }
      if whence == SeekStart {
        offset := bounds.first + offset;
      } else if whence == SeekEnd {
        offset := bounds.last - offset;
      }
      if offset < bounds.first || offset > bounds.last {
        return 0, OUT_OF_RANGE;
      }
      this.offset := offset;
      err := NoError;
    }

    /**
     How ReadBatch starts: a symbolic offset becomes the first or last offset of
     the partition, an absolute one stays, and the batch starts where the
     connection is.  `request` is the error of sending the request or waiting for
     the response, `header` that of reading the response up to the messages.
     A batch without a connection neither holds the lock nor publishes an offset.
     */
    method StartBatch(bounds: Bounds, request: Err, header: Err, msgs: Source) returns (batch: Batch)
      requires bounds.Found? ==> bounds.first <= bounds.last
      modifies this`offset, this`locked
      ensures fresh(batch) && batch.msgs == msgs
      ensures var symbolic := old(offset) in {FIRST_OFFSET, LAST_OFFSET};
              if symbolic && bounds.Missing? then
                && batch.conn == null && batch.err == DontExpectEOF(bounds.error) && batch.offset == 0
                && offset == old(offset) && locked == old(locked)
              else
                && offset == (if old(offset) == FIRST_OFFSET then bounds.first
                              else if old(offset) == LAST_OFFSET then bounds.last
                              else old(offset))
                && (request != NoError ==>
                      && batch.conn == null && batch.err == DontExpectEOF(request) && batch.offset == 0
                      && locked == old(locked))
                && (request == NoError ==>
                      batch.conn == this && batch.err == DontExpectEOF(header) && batch.offset == offset && locked)
    {
      var o, whence := Offset();
      var start, err := Seek(o, whence, bounds);
      if err != NoError {
        batch := new Batch(null, 0, DontExpectEOF(err), msgs);
        return;
      }
      if request != NoError {
        batch := new Batch(null, 0, DontExpectEOF(request), msgs);
        return;
      }
      locked := true;
      batch := new Batch(this, start, DontExpectEOF(header), msgs);
    }
  }

  /** The end of a stream is unexpected while a batch is being opened. */
  function DontExpectEOF(e: Err): (r: Err)
    ensures r != EOF && (r == NoError <==> e == NoError) && (e != EOF ==> r == e)
  {
    if e == EOF then Other else e
  }

  /** messageSetReader, reduced to what it still has to give. */
  class Source {
    const format: Format
    const ending: Err
    const discards: Err
    var left: seq<Message>

    constructor (format: Format, left: seq<Message>, ending: Err, discards: Err)
      ensures this.format == format && this.left == left && this.ending == ending && this.discards == discards
    {
      this.format, this.left, this.ending, this.discards := format, left, ending, discards;
    }

    method ReadMessage(min: int) returns (r: Reply)
      modifies this
      ensures var p := Pass(format, min, old(left));
              if p == [] then r == Failed(ending) && left == []
              else r == Got(p[0]) && left == p[1..]
    {
      while format.V1? && left != [] && left[0].offset < min
        invariant Pass(format, min, left) == Pass(format, min, old(left))
        decreases |left|
      {
        left := left[1..];
      }
      if left == [] {
        return Failed(ending);
      }
      r := Got(left[0]);
      left := left[1..];
    }

    method Discard() returns (err: Err)
      modifies this
      ensures left == [] && err == discards
    {
      left := [];
      err := discards;
    }
  }

  class Batch {
    var conn: Conn?
    var offset: int
    var err: Err
    const msgs: Source

    constructor (conn: Conn?, offset: int, err: Err, msgs: Source)
      ensures this.conn == conn && this.msgs == msgs && this.offset == offset && this.err == err
    {
      this.conn, this.msgs, this.offset, this.err := conn, msgs, offset, err;
    }

    /** A batch without a connection has nothing to give. */
    ghost predicate Valid()
      reads this, conn, msgs
    {
      msgs.ending != NoError && (conn == null ==> msgs.left == [] || err != NoError)
    }

    ghost function Now(): View
      reads this, conn, msgs
    {
      View(msgs.format, if conn == null then 0 else conn.offset, offset, err, msgs.left, msgs.ending, msgs.discards)
    }

    method ReadStep(late: bool) returns (r: Reply)
      requires Valid()
      modifies this`offset, this`err, msgs
      ensures Valid() && (r, Now()) == Step(old(Now()), late)
    {
      if err != NoError {
        return Failed(err);
      }
      r := msgs.ReadMessage(offset);
      if r.Got? {
        offset := r.msg.offset + 1;
      } else if r.error == ShortRead {
        var e := msgs.Discard();
        if e == NoError {
          e := if late then TIMED_OUT else EOF;
        }
        err := e;
        r := Failed(e);
      } else {
        err := r.error;
      }
    }

    method ReadMessage(late: bool) returns (r: Reply)
      requires Valid()
      modifies this`offset, this`err, msgs
      ensures Valid() && (r, Now()) == Read(old(Now()), late)
    {
      hide Pass, Last;
      r := ReadStep(late);
      ghost var v := old(Now());
      while conn != null && r.Got? && r.msg.offset < conn.offset
        invariant Valid() && conn == old(conn) && Now().fetched == old(Now().fetched)
        invariant Read(old(Now()), late) == Read(v, late) && (r, Now()) == Step(v, late)
        invariant conn == null ==> v.left == [] || v.err != NoError
        decreases |msgs.left|, r.Got?
      {
        v := Now();
        StepShrinks(v, late);
        r := ReadStep(late);
      }
      GotNeedsSource(v, late);
    }

    /** Batch.Read into a buffer of `size` bytes: a value that does not fit ends the batch in front of it. */
    method ReadInto(size: nat, late: bool) returns (r: Reply, n: nat)
      requires Valid()
      modifies this`offset, this`err, msgs
      ensures Valid()
      ensures var (reply, w) := Step(old(Now()), late);
              if reply.Got? && reply.msg.value.Len() > size then
                r == Failed(ShortBuffer) && n == size && Now() == w.(offset := old(offset), err := ShortBuffer)
              else r == reply && Now() == w && n == if reply.Got? then reply.msg.value.Len() else 0
    {
      hide Step;
      var start := offset;
      r := ReadStep(late);
      n := if r.Got? then r.msg.value.Len() else 0;
      if n > size {
        n, r, err, offset := size, Failed(ShortBuffer), ShortBuffer, start;
      }
    }

    /** Publishes the next offset, closes the connection on errors it cannot survive, releases the lock. */
    method Close() returns (result: Err)
      requires Valid()
      modifies this`conn, conn, msgs
      ensures conn == null && msgs.left == [] && Valid()
      ensures result == if err == EOF then NoError else err
      ensures old(conn) != null ==>
                && old(conn).offset == offset
                && !old(conn).locked
                && old(conn).closed == (old(conn.closed) || !(result in {NoError, ShortBuffer} || result.Broker?))
    {
      var c := conn;
      conn := null;
      var _ := msgs.Discard();
      result := if err == EOF then NoError else err;
      if c != null {
        c.offset := offset;
        if result != NoError && !result.Broker? && result != ShortBuffer {
          c.closed := true;
        }
        c.locked := false;
      }
    }
  }

  lemma StepShrinks(v: View, late: bool)
    ensures Step(v, late).0.Got? ==> |Step(v, late).1.left| < |v.left|
  {
    PassSuffix(v.format, v.offset, v.left);
  }

  lemma GotNeedsSource(v: View, late: bool)
    ensures Step(v, late).0.Got? ==> v.left != [] && v.err == NoError
  {
    PassSuffix(v.format, v.offset, v.left);
  }
}
