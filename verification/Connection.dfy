/**
 The connection multiplexer (conn.go): many goroutines share one socket through
 correlation ids, a write lock and a read lock, and a server answers requests
 in the order it received them.  Actions are the critical sections of the
 goroutines, the server's answers and the arrival of bytes, in any order.
 */
module Connection {
  import opened Collections
  import opened Wire

  datatype Outcome = Success | BrokerError | OtherError

  datatype Phase = Waiting | Reading(remain: int) | Finished(outcome: Outcome)

  /** An operation: its correlation id, where it is, and the response bytes it consumed. */
  datatype Op = Op(id: int, phase: Phase, got: seq<byte>)

  datatype State = State(
    counter: int,            // correlationID
    shut: bool,              // Close was called
    closed: bool,
    lock: Option<nat>,       // the operation that holds rlock between waitResponse and its end
    arrived: seq<byte>,      // received and not yet consumed
    flight: seq<byte>,       // sent by the server and not yet received
    ops: seq<Op>,            // in the order of their requests
    sent: nat,               // how many of the requests reached the server
    replies: seq<seq<byte>>, // what the server answered, in the order of the requests
    taken: nat)              // how many operations ended after skipping a response header

  datatype Action =
    | Shut
    | Request(ok: bool)
    | Answer(payload: seq<byte>)
    | Arrive(n: nat)
    | Peek(op: nat)
    | PeekFails(op: nat)
    | Consume(op: nat, n: nat)
    | Finish(op: nat, outcome: Outcome)

  const START := State(0, false, false, None, [], [], [], 0, [], 0)

  predicate Enabled(s: State, a: Action) {
    match a
    case Shut => true
    // At most 2^32 - 1 requests are outstanding; writing to a closed connection fails.
    case Request(ok) => |s.ops| - s.taken < 0x1_0000_0000 && (ok ==> !s.closed)
    case Answer(p) => |s.replies| < s.sent && s.sent <= |s.ops| && |p| + 4 < 0x8000_0000
    case Arrive(n) => !s.closed && n <= |s.flight|
    case Peek(k) => k < |s.ops| && s.ops[k].phase.Waiting? && s.lock.None? && |s.arrived| >= 8
    case PeekFails(k) => k < |s.ops| && s.ops[k].phase.Waiting? && s.lock.None?
    // The readers never consume more than the frame has left: ReaderConsumes.
    case Consume(k, n) =>
      s.lock == Some(k) && k < |s.ops| && s.ops[k].phase.Reading? && n <= s.ops[k].phase.remain && n <= |s.arrived|
    // expectZeroSize: no success with unread bytes.
    case Finish(k, o) =>
      s.lock == Some(k) && k < |s.ops| && s.ops[k].phase.Reading? && (o.Success? ==> s.ops[k].phase.remain == 0)
  }

  function Frame(id: int, payload: seq<byte>): seq<byte> {
    Int32(4 + |payload|) + Int32(id) + payload
  }

  function Failed(s: State, k: nat): State
    requires k < |s.ops|
  {
    s.(closed := true, ops := s.ops[k := s.ops[k].(phase := Finished(OtherError))])
  }

  function Apply(s: State, a: Action): State
    requires Enabled(s, a)
  {
    match a
    case Shut => s.(shut := true, closed := true)
    case Request(ok) =>
      var id := Wrap32(s.counter + 1);
      if ok then s.(counter := id, ops := s.ops + [Op(id, Waiting, [])], sent := |s.ops| + 1)
      else s.(counter := id, ops := s.ops + [Op(id, Finished(OtherError), [])], closed := true)
    case Answer(p) => s.(flight := s.flight + Frame(s.ops[|s.replies|].id, p), replies := s.replies + [p])
    case Arrive(n) => s.(arrived := s.arrived + s.flight[..n], flight := s.flight[n..])
    case Peek(k) =>
      if Signed(s.arrived[4..8]) == s.ops[k].id then
        s.(arrived := s.arrived[8..], lock := Some(k),
           ops := s.ops[k := s.ops[k].(phase := Reading(Signed(s.arrived[..4]) - 4))])
      else s
    case PeekFails(k) => Failed(s, k)
    case Consume(k, n) =>
      var op := s.ops[k];
      s.(arrived := s.arrived[n..],
         ops := s.ops[k := op.(phase := Reading(op.phase.remain - n), got := op.got + s.arrived[..n])])
    case Finish(k, o) =>
      s.(lock := None, taken := s.taken + 1, closed := s.closed || o.OtherError?,
         ops := s.ops[k := s.ops[k].(phase := Finished(o))])
  }

  // ---------------------------------------------------------------------
  // The invariant
  // ---------------------------------------------------------------------

  /** The correlation id of the k-th request of a connection. */
  function Id(k: nat): int {
    Wrap32(k + 1)
  }

  /** Ids repeat only 2^32 requests apart. */
  lemma IdsDiffer(j: nat, k: nat)
    requires j <= k < j + 0x1_0000_0000 && Id(j) == Id(k)
    ensures j == k
  {
    var m := 0x1_0000_0000;
    var a, b := j + 1 + 0x8000_0000, k + 1 + 0x8000_0000;
    assert a % m == b % m;
    assert b - a == (b / m - a / m) * m;
  }

  /** The response frames from the i-th on. */
  function Frames(replies: seq<seq<byte>>, i: nat): seq<byte>
    decreases |replies| - i
  {
    if i >= |replies| then [] else Frame(Id(i), replies[i]) + Frames(replies, i + 1)
  }

  ghost predicate Numbered(s: State) {
    && s.taken <= |s.replies| <= s.sent <= |s.ops| <= s.taken + 0x1_0000_0000
    && s.counter == Wrap32(|s.ops|)
    && (forall k :: 0 <= k < |s.ops| ==> s.ops[k].id == Id(k))
    && (forall k :: 0 <= k < |s.replies| ==> |s.replies[k]| + 4 < 0x8000_0000)
  }

  /** Operations before `taken` consumed exactly their own response; operations after it nothing. */
  ghost predicate Ordered(s: State)
    requires s.taken <= |s.replies|
  {
    && (forall k :: 0 <= k < |s.ops| && k < s.taken ==> s.ops[k].phase.Finished? && s.ops[k].got == s.replies[k])
    && (forall k :: 0 <= k < |s.ops| && k >= s.taken && s.lock != Some(k) ==>
                      && s.ops[k].got == []
                      && (s.ops[k].phase.Waiting? || s.ops[k].phase == Finished(OtherError)))
  }

  /** The unread bytes are the unread part of the response being read, then whole frames. */
  ghost predicate InStep(s: State) {
    match s.lock
    case None => OnBoundary(s)
    case Some(k) =>
      && k == s.taken < |s.replies| && k < |s.ops|
      && s.ops[k].phase.Reading?
      && (var got, reply := s.ops[k].got, s.replies[k];
          && got <= reply
          && s.ops[k].phase.remain == |reply| - |got|
          && s.arrived + s.flight == reply[|got|..] + Frames(s.replies, k + 1))
  }

  ghost predicate OnBoundary(s: State) {
    s.arrived + s.flight == Frames(s.replies, s.taken)
  }

  ghost predicate Aligned(s: State) {
    Numbered(s) && Ordered(s) && InStep(s)
  }

  /** The reader of the response left no bytes. */
  predicate Tidy(s: State, a: Action)
    requires Enabled(s, a)
  {
    a.Finish? ==> s.ops[a.op].phase.remain == 0
  }

  // ---------------------------------------------------------------------
  // Every action keeps it
  // ---------------------------------------------------------------------

  lemma NumberedKept(s: State, a: Action)
    requires Aligned(s) && Enabled(s, a)
    ensures Numbered(Apply(s, a))
  {
    hide Frame, Frames, Signed, Ordered;
    if a.Request? {
      WrapNext(|s.ops|);
    }
  }

  lemma WrapNext(n: nat)
    ensures Wrap32(Wrap32(n) + 1) == Wrap32(n + 1)
  {
    var m := 0x1_0000_0000;
    var a := n + 0x8000_0000;
    ModUnique(a + 1, m, a / m + (if a % m + 1 == m then 1 else 0), if a % m + 1 == m then 0 else a % m + 1);
  }

  lemma OrderedKept(s: State, a: Action)
    requires Aligned(s) && Enabled(s, a) && Tidy(s, a)
    requires a.Peek? ==> Apply(s, a) == s || a.op == s.taken
    ensures Apply(s, a).taken <= |Apply(s, a).replies| && Ordered(Apply(s, a))
  {
    hide Frame, Frames, Signed;
    if a.Shut? || a.Request? || a.Answer? || a.Arrive? {
      OutsideOrdered(s, a);
    } else if a.Consume? || a.Finish? {
      InsideOrdered(s, a);
    }
  }

  lemma OutsideOrdered(s: State, a: Action)
    requires Aligned(s) && Enabled(s, a) && (a.Shut? || a.Request? || a.Answer? || a.Arrive?)
    ensures Apply(s, a).taken <= |Apply(s, a).replies| && Ordered(Apply(s, a))
  {
    hide Frame, Frames, Signed;
  }

  lemma InsideOrdered(s: State, a: Action)
    requires Aligned(s) && Enabled(s, a) && Tidy(s, a) && (a.Consume? || a.Finish?)
    ensures Apply(s, a).taken <= |Apply(s, a).replies| && Ordered(Apply(s, a))
  {
    hide Frame, Frames, Signed, OnBoundary, Numbered;
  }

  lemma {:induction false} FramesAnswer(replies: seq<seq<byte>>, p: seq<byte>, i: nat)
    requires i <= |replies|
    ensures Frames(replies + [p], i) == Frames(replies, i) + Frame(Id(|replies|), p)
    decreases |replies| - i
  {
    hide Frame, Id;
    if i < |replies| {
      FramesAnswer(replies, p, i + 1);
      Assoc(Frame(Id(i), replies[i]), Frames(replies, i + 1), Frame(Id(|replies|), p));
    } else {
      assert Frames(replies + [p], i + 1) == [];
    }
  }

  lemma AnswerInStep(s: State, p: seq<byte>)
    requires Aligned(s) && Enabled(s, Answer(p))
    ensures InStep(Apply(s, Answer(p)))
  {
    hide Frame, Frames, Signed, Ordered, Id;
    var t := Apply(s, Answer(p));
    var frame := Frame(Id(|s.replies|), p);
    Assoc(s.arrived, s.flight, frame);
    match s.lock {
      case None =>
        FramesAnswer(s.replies, p, s.taken);
      case Some(k) =>
        FramesAnswer(s.replies, p, k + 1);
        Assoc(s.replies[k][|s.ops[k].got|..], Frames(s.replies, k + 1), frame);
    }
  }

  lemma ArriveInStep(s: State, n: nat)
    requires Aligned(s) && Enabled(s, Arrive(n))
    ensures InStep(Apply(s, Arrive(n)))
  {
    hide Frame, Frames, Signed, Ordered, Numbered;
    assert s.arrived + s.flight[..n] + s.flight[n..] == s.arrived + s.flight;
  }

  /** The first eight bytes of a frame are read back as its size and id. */
  lemma PeeksFrame(id: int, payload: seq<byte>, rest: seq<byte>, bytes: seq<byte>)
    requires -0x8000_0000 <= id < 0x8000_0000 && |payload| + 4 < 0x8000_0000
    requires bytes == Frame(id, payload) + rest
    ensures Signed(bytes[..4]) == 4 + |payload| && Signed(bytes[4..8]) == id && bytes[8..] == payload + rest
  {
    Widths();
    SignedBigEndian(4, 4 + |payload|);
    SignedBigEndian(4, id);
    hide BigEndian, Signed;
    assert bytes[..4] == Int32(4 + |payload|);
    assert bytes[4..8] == Int32(id);
  }

  /** Only the operation whose response is next takes it, and it takes its header. */
  lemma PeekInStep(s: State, k: nat)
    requires Aligned(s) && Enabled(s, Peek(k))
    ensures InStep(Apply(s, Peek(k)))
    ensures Apply(s, Peek(k)) == s || k == s.taken
    ensures k == s.taken ==> Apply(s, Peek(k)).lock == Some(k)
  {
    hide Frame, Signed;
    assert s.taken < |s.replies|;
    var i := s.taken;
    var bytes, reply := s.arrived + s.flight, s.replies[i];
    PeeksFrame(Id(i), reply, Frames(s.replies, i + 1), bytes);
    assert bytes[..4] == s.arrived[..4] && bytes[4..8] == s.arrived[4..8];
    assert bytes[8..] == s.arrived[8..] + s.flight;
    if s.ops[k].id == Id(i) {
      assert k >= i;
      IdsDiffer(i, k);
      assert reply[0..] == reply;
    }
  }

  lemma ConsumeInStep(s: State, k: nat, n: nat)
    requires Aligned(s) && Enabled(s, Consume(k, n))
    ensures InStep(Apply(s, Consume(k, n)))
  {
    hide Frame, Frames, Signed, Ordered, Numbered;
    var got, reply, more := s.ops[k].got, s.replies[k], Frames(s.replies, k + 1);
    var unread := reply[|got|..];
    assert s.arrived[..n] == (s.arrived + s.flight)[..n] == unread[..n];
    assert s.arrived[n..] + s.flight == (s.arrived + s.flight)[n..] == unread[n..] + more;
    assert got + unread[..n] == reply[..|got| + n];
    assert unread[n..] == reply[|got| + n..];
  }

  /** Releasing the read lock leaves the stream on a frame boundary exactly when no byte of the response is left. */
  lemma FinishBoundaryIff(s: State, k: nat, o: Outcome)
    requires Aligned(s) && Enabled(s, Finish(k, o))
    ensures OnBoundary(Apply(s, Finish(k, o))) <==> s.ops[k].phase.remain == 0
  {
    hide Frame, Frames, Signed, Ordered, Numbered;
    var unread, more := s.replies[k][|s.ops[k].got|..], Frames(s.replies, k + 1);
    if s.ops[k].phase.remain == 0 {
      assert unread + more == more;
    } else {
      assert |unread + more| > |more|;
    }
  }

  lemma Kept(s: State, a: Action)
    requires Aligned(s) && Enabled(s, a) && Tidy(s, a)
    ensures Aligned(Apply(s, a))
  {
    hide Frame, Frames, Signed, Ordered, Numbered;
    match a {
      case Shut =>
      case Request(ok) =>
      case Answer(p) => AnswerInStep(s, p);
      case Arrive(n) => ArriveInStep(s, n);
      case Peek(k) => PeekInStep(s, k);
      case PeekFails(k) =>
      case Consume(k, n) => ConsumeInStep(s, k, n);
      case Finish(k, o) => FinishBoundaryIff(s, k, o);
    }
    NumberedKept(s, a);
    OrderedKept(s, a);
  }

  ghost predicate HoldsLock(s: State, k: nat) {
    s.lock == Some(k) && k < |s.ops| && s.ops[k].phase.Reading? && s.ops[k].phase.remain >= 0
  }

  /** Reading up to `rest` is a step of operation `k`, which has then read exactly those bytes. */
  ghost predicate IsConsume(s: State, k: nat, rest: Src)
    requires HoldsLock(s, k)
  {
    && rest.remain <= s.ops[k].phase.remain
    && (var a := Consume(k, s.ops[k].phase.remain - rest.remain);
        && Enabled(s, a)
        && Apply(s, a).arrived == rest.data
        && Apply(s, a).ops[k].phase == Reading(rest.remain)
        && Apply(s, a).ops[k].got == s.ops[k].got + s.arrived[..a.n])
  }

  /** A reader that accounts for every byte, as all of them are proved to do, is a step of its operation. */
  lemma ReaderConsumes(s: State, k: nat, rest: Src)
    requires HoldsLock(s, k) && Tail(Src(s.arrived, s.ops[k].phase.remain), rest)
    ensures IsConsume(s, k, rest)
  {
    hide Signed, Frame;
  }

  // ---------------------------------------------------------------------
  // Runs
  // ---------------------------------------------------------------------

  ghost predicate Possible(s: State, actions: seq<Action>)
    decreases |actions|
  {
    actions == [] || (Enabled(s, actions[0]) && Possible(Apply(s, actions[0]), actions[1..]))
  }

  function Run(s: State, actions: seq<Action>): State
    requires Possible(s, actions)
    decreases |actions|
  {
    if actions == [] then s else Run(Apply(s, actions[0]), actions[1..])
  }

  /** Every response reader leaves no bytes or, with `closing`, closes the connection. */
  ghost predicate AllTidy(s: State, actions: seq<Action>, closing: bool)
    requires Possible(s, actions)
    decreases |actions|
  {
    actions != [] ==>
      && (Tidy(s, actions[0]) || (closing && actions[0].outcome.OtherError?))
      && AllTidy(Apply(s, actions[0]), actions[1..], closing)
  }

  /** The connection was closed from outside or by an operation that failed with something else than a broker error. */
  ghost predicate Given(s: State) {
    s.shut || exists k :: 0 <= k < |s.ops| && s.ops[k].phase == Finished(OtherError)
  }

  /** An operation that has ended stays as it is. */
  lemma EndedStays(s: State, a: Action, k: nat)
    requires Enabled(s, a) && k < |s.ops| && s.ops[k].phase.Finished?
    ensures k < |Apply(s, a).ops| && Apply(s, a).ops[k] == s.ops[k]
  {
    hide Frame, Signed;
  }

  lemma ClosedKept(s: State, a: Action)
    requires Enabled(s, a) && (s.closed <==> Given(s))
    ensures Apply(s, a).closed <==> Given(Apply(s, a))
  {
    hide Frame, Signed;
    var t := Apply(s, a);
    if k :| 0 <= k < |s.ops| && s.ops[k].phase == Finished(OtherError) {
      EndedStays(s, a, k);
      assert t.ops[k].phase == Finished(OtherError);
    }
    if a.Request? {
      assert t.ops[|s.ops|].phase == if a.ok then Waiting else Finished(OtherError);
    } else if a.PeekFails? || a.Finish? {
      assert t.ops[a.op].phase == Finished(if a.Finish? then a.outcome else OtherError);
    }
    if k :| 0 <= k < |t.ops| && t.ops[k].phase == Finished(OtherError) {
      assert k < |s.ops| ==> s.ops[k].phase == Finished(OtherError) || t.closed;
    }
  }

  /**
   In every run the connection is closed exactly when Close was called, as it may
   be at any time, or some operation failed with something else than an error of
   the broker.
   */
  lemma {:induction false} ClosedIff(s: State, actions: seq<Action>)
    requires Possible(s, actions) && (s.closed <==> Given(s))
    ensures var t := Run(s, actions);
            && (t.closed <==> Given(t)) && (t.shut <==> s.shut || Shut in actions) && Enabled(t, Shut)
    decreases |actions|
  {
    if actions != [] {
      hide Enabled, Apply, Given;
      ClosedKept(s, actions[0]);
      ShutOnce(s, actions[0]);
      ClosedIff(Apply(s, actions[0]), actions[1..]);
    }
  }

  lemma ShutOnce(s: State, a: Action)
    requires Enabled(s, a)
    ensures Apply(s, a).shut <==> s.shut || a == Shut
  {
    hide Frame, Signed;
  }

  lemma ClosedStays(s: State, a: Action)
    requires Enabled(s, a)
    ensures s.closed ==> Apply(s, a).closed
  {
    hide Frame, Signed;
  }

  lemma {:induction false} RunKeeps(s: State, actions: seq<Action>, closing: bool)
    requires Possible(s, actions) && AllTidy(s, actions, closing)
    requires Aligned(s) || (closing && s.closed)
    ensures Aligned(Run(s, actions)) || (closing && Run(s, actions).closed)
    decreases |actions|
  {
    hide Aligned;
    if actions != [] {
      var a := actions[0];
      ClosedStays(s, a);
      if Aligned(s) && Tidy(s, a) {
        Kept(s, a);
      }
      RunKeeps(Apply(s, a), actions[1..], closing);
    }
  }

  /** Each operation consumed bytes of its own response only, in order, and a successful one all of them. */
  ghost predicate OwnFrames(s: State) {
    forall k :: 0 <= k < |s.ops| ==>
                  && (s.ops[k].got != [] ==> k < |s.replies| && s.ops[k].got <= s.replies[k])
                  && (s.ops[k].phase == Finished(Success) ==> k < |s.replies| && s.ops[k].got == s.replies[k])
  }

  lemma AlignedOwns(s: State)
    requires Aligned(s)
    ensures OwnFrames(s)
    ensures s.lock.None? ==> OnBoundary(s)
  {
    hide Frame, Frames;
  }

  /**
   In every interleaving, with readers that leave no bytes or fail with
   something else than a broker error: unless Close was called or an operation
   failed like that, the connection is open, every operation has consumed nothing
   but its own response and the stream is on a frame boundary whenever the read
   lock is free.
   */
  lemma Multiplexes(actions: seq<Action>)
    requires Possible(START, actions) && AllTidy(START, actions, true)
    ensures var s := Run(START, actions);
            if Given(s) then s.closed else !s.closed && OwnFrames(s) && (s.lock.None? ==> OnBoundary(s))
  {
    hide Possible, AllTidy, Run, OwnFrames;
    RunKeeps(START, actions, true);
    ClosedIff(START, actions);
    if !Run(START, actions).closed {
      AlignedOwns(Run(START, actions));
    }
  }

  /** With readers that never leave bytes it holds on a closed connection too, for what is still buffered. */
  lemma MultiplexesClosed(actions: seq<Action>)
    requires Possible(START, actions) && AllTidy(START, actions, false)
    ensures var s := Run(START, actions);
            OwnFrames(s) && (s.lock.None? ==> OnBoundary(s))
  {
    hide Possible, AllTidy, Run, OwnFrames;
    RunKeeps(START, actions, false);
    AlignedOwns(Run(START, actions));
  }

  // ---------------------------------------------------------------------
  // Every answered operation can be served
  // ---------------------------------------------------------------------

  ghost predicate Leads(s: State, actions: seq<Action>, t: State) {
    Possible(s, actions) && Run(s, actions) == t
  }

  /** One step more. */
  lemma {:induction false} Next(s: State, actions: seq<Action>, t: State, x: Action)
    requires Leads(s, actions, t) && Enabled(t, x)
    ensures Leads(s, actions + [x], Apply(t, x))
    decreases |actions|
  {
    hide Enabled, Apply;
    var more := actions + [x];
    if actions == [] {
      assert s == t && more[0] == x && more[1..] == [];
      assert Possible(Apply(t, x), more[1..]) && Run(Apply(t, x), more[1..]) == Apply(t, x);
    } else {
      Next(Apply(s, actions[0]), actions[1..], t, x);
      assert more[0] == actions[0] && more[1..] == actions[1..] + [x];
    }
  }

  /** The state after the operation whose response is next has read it and ended with `o`. */
  function AfterServing(s: State, o: Outcome): State
    requires s.taken < |s.replies| && s.taken < |s.ops|
  {
    s.(arrived := Frames(s.replies, s.taken + 1), flight := [], taken := s.taken + 1, closed
       := s.closed || o.OtherError?,
       ops := s.ops[s.taken := s.ops[s.taken].(phase := Finished(o), got := s.replies[s.taken])])
  }

  /**
   In every state of an open connection in which the read lock is free and a
   response is on its way to an operation that waits: the operation can read all
   of it and end as it likes, and the connection closes exactly when it fails
   with something else than a broker error.
   */
  lemma NextServed(s: State, o: Outcome) returns (actions: seq<Action>)
    requires Aligned(s) && !s.closed && s.lock.None? && s.taken < |s.replies| && s.ops[s.taken].phase.Waiting?
    ensures Leads(s, actions, AfterServing(s, o))
  {
    hide Frame, Frames, Signed, Leads, Id;
    var k, bytes := s.taken, s.arrived + s.flight;
    var reply, more := s.replies[k], Frames(s.replies, k + 1);
    IdFits(k);
    assert bytes == Frame(Id(k), reply) + more by {
      NextFrame(s.replies, k);
    }
    FrameLength(Id(k), reply);
    PeeksFrame(Id(k), reply, more, bytes);
    Stays(s);
    actions := [Arrive(|s.flight|)];
    Next(s, [], s, Arrive(|s.flight|));
    assert [] + [Arrive(|s.flight|)] == actions;
    var t := Apply(s, Arrive(|s.flight|));
    assert t.arrived == bytes && t.flight == [];
    Next(s, actions, t, Peek(k));
    actions, t := actions + [Peek(k)], Apply(t, Peek(k));
    Next(s, actions, t, Consume(k, |reply|));
    actions, t := actions + [Consume(k, |reply|)], Apply(t, Consume(k, |reply|));
    assert (reply + more)[..|reply|] == reply && (reply + more)[|reply|..] == more && [] + reply == reply;
    Next(s, actions, t, Finish(k, o));
    actions, t := actions + [Finish(k, o)], Apply(t, Finish(k, o));
    assert s.ops[k].got == [];
    assert t.ops == s.ops[k := s.ops[k].(phase := Finished(o), got := reply)];
    assert t == AfterServing(s, o);
  }

  lemma Stays(s: State)
    ensures Leads(s, [], s)
  {
  }

  lemma IdFits(k: nat)
    ensures -0x8000_0000 <= Id(k) < 0x8000_0000
  {
  }

  lemma NextFrame(replies: seq<seq<byte>>, k: nat)
    requires k < |replies|
    ensures Frames(replies, k) == Frame(Id(k), replies[k]) + Frames(replies, k + 1)
  {
  }

  /** On an idle connection a request gets its answer, and then the connection is idle or closed. */
  lemma RoundTrip(s: State, p: seq<byte>, o: Outcome) returns (actions: seq<Action>)
    requires Aligned(s) && !s.closed && s.lock.None? && s.taken == |s.ops| && |p| + 4 < 0x8000_0000
    ensures exists t :: && Leads(s, actions, t) && t.ops == s.ops + [Op(Id(|s.ops|), Finished(o), p)]
                        && t.taken == |t.ops| == |t.replies| && t.replies == s.replies + [p]
                        && t.lock.None? && OnBoundary(t) && (t.closed <==> o.OtherError?)
  {
    hide Frame, Frames, Signed, Leads, Ordered, Id;
    Stays(s);
    Next(s, [], s, Request(true));
    var t := Apply(s, Request(true));
    Kept(s, Request(true));
    Next(s, [] + [Request(true)], t, Answer(p));
    Kept(t, Answer(p));
    var u := Apply(t, Answer(p));
    var rest := NextServed(u, o);
    Joined(s, [] + [Request(true)] + [Answer(p)], u, rest, AfterServing(u, o));
    actions := [] + [Request(true)] + [Answer(p)] + rest;
    NoFrames(u.replies);
    var v := AfterServing(u, o);
    assert v.ops == s.ops + [Op(Id(|s.ops|), Finished(o), p)];
    assert Leads(s, actions, v);
  }

  lemma NoFrames(replies: seq<seq<byte>>)
    ensures Frames(replies, |replies|) == []
  {
  }

  lemma {:induction false} Joined(s: State, a: seq<Action>, t: State, b: seq<Action>, u: State)
    requires Leads(s, a, t) && Leads(t, b, u)
    ensures Leads(s, a + b, u)
    decreases |a|
  {
    hide Enabled, Apply;
    if a == [] {
      assert a + b == b;
    } else {
      Joined(Apply(s, a[0]), a[1..], t, b, u);
      assert (a + b)[0] == a[0] && (a + b)[1..] == a[1..] + b;
    }
  }

  // ---------------------------------------------------------------------
  // Readers that leave bytes
  // ---------------------------------------------------------------------

  /**
   After a response of which the four bytes of a throttle time are left, the
   next operation takes the throttle time for the size and the size for the id:
   it starts to read exactly when its id happens to be the size of the next
   frame, whosever frame that is, and else it changes nothing and polls again.
   */
  lemma LeftoverMisleads(s: State, k: nat, throttle: int, id: int, payload: seq<byte>, more: seq<byte>)
    requires Enabled(s, Peek(k))
    requires -0x8000_0000 <= throttle < 0x8000_0000 && |payload| + 4 < 0x8000_0000
    requires s.arrived == Int32(throttle) + (Frame(id, payload) + more)
    ensures s.ops[k].id != 4 + |payload| ==> Apply(s, Peek(k)) == s
    ensures s.ops[k].id == 4 + |payload| ==>
              && Apply(s, Peek(k)).lock == Some(k)
              && Apply(s, Peek(k)).ops[k].phase == Reading(throttle - 4)
              && Apply(s, Peek(k)).arrived == Int32(id) + (payload + more)
  {
    Widths();
    SignedBigEndian(4, 4 + |payload|);
    SignedBigEndian(4, throttle);
    hide BigEndian, Signed;
    assert s.arrived[..4] == Int32(throttle);
    assert s.arrived[4..8] == Int32(4 + |payload|);
    assert s.arrived[8..] == Int32(id) + (payload + more);
  }

  /**
   Closing the socket does not empty the read buffer: whether the reader that
   left bytes closed the connection or not, bytes of its response that look like
   a frame with the id of a waiting operation are taken by that operation.
   */
  lemma LeftoverTaken(s: State, k: nat, o: Outcome, j: nat, q: seq<byte>, tail: seq<byte>)
    requires Aligned(s) && Enabled(s, Finish(k, o)) && s.ops[k].phase.remain != 0
    requires j < |s.ops| && s.ops[j].phase.Waiting?
    requires q != [] && |q| + 4 < 0x8000_0000 && s.arrived == Frame(s.ops[j].id, q) + tail
    requires j < |s.replies| ==> !(q <= s.replies[j])
    ensures var t := Apply(s, Finish(k, o));
            && Enabled(t, Peek(j))
            && Enabled(Apply(t, Peek(j)), Consume(j, |q|))
            && Apply(Apply(t, Peek(j)), Consume(j, |q|)).ops[j].got == q
            && !OwnFrames(Apply(Apply(t, Peek(j)), Consume(j, |q|)))
  {
    hide Frame, Frames, Signed;
    var t := Apply(s, Finish(k, o));
    assert |s.arrived| >= 8 by { FrameLength(s.ops[j].id, q); }
    PeeksFrame(s.ops[j].id, q, tail, s.arrived);
    var u := Apply(t, Peek(j));
    assert u.arrived == q + tail && u.ops[j].got == [];
    assert Apply(u, Consume(j, |q|)).ops[j].got == q;
  }

  lemma FrameLength(id: int, payload: seq<byte>)
    ensures |Frame(id, payload)| == 8 + |payload|
  {
  }

  // ---------------------------------------------------------------------
  // A run in which that happens
  // ---------------------------------------------------------------------

  lemma Then(s: State, a: Action, rest: seq<Action>)
    requires Enabled(s, a) && Possible(Apply(s, a), rest)
    ensures Possible(s, [a] + rest) && Run(s, [a] + rest) == Run(Apply(s, a), rest)
  {
    hide Enabled, Apply;
    assert ([a] + rest)[1..] == rest;
  }

  lemma ThenNothing(s: State)
    ensures Possible(s, []) && Run(s, []) == s
  {
  }

  /** Two requests are sent and answered, and the first operation has its response in front of it. */
  function TwoAnswered(p: seq<byte>, q: seq<byte>): State {
    State(2, false, false, Some(0), p + Frame(2, q), [], [Op(1, Reading(|p|), []), Op(2, Waiting, [])], 2, [p, q], 0)
  }

  function ToTwoAnswered(p: seq<byte>, q: seq<byte>): seq<Action> {
    [Request(true)] + ([Request(true)] + ([Answer(p)] + ([Answer(q)] + ([Arrive(16 + |p| + |q|)] + [Peek(0)]))))
  }

  lemma TwoRequests(p: seq<byte>, q: seq<byte>)
    requires |p| + 4 < 0x8000_0000 && |q| + 4 < 0x8000_0000
    ensures Possible(START, ToTwoAnswered(p, q)) && Run(START, ToTwoAnswered(p, q)) == TwoAnswered(p, q)
  {
    hide Frame, Signed, Possible, Run;
    var one, two := Op(1, Waiting, []), Op(2, Waiting, []);
    var s1 := State(1, false, false, None, [], [], [one], 1, [], 0);
    var s2 := State(2, false, false, None, [], [], [one, two], 2, [], 0);
    var s3 := s2.(flight := Frame(1, p), replies := [p]);
    var s4 := s3.(flight := Frame(1, p) + Frame(2, q), replies := [p, q]);
    var s5 := s4.(flight := [], arrived := Frame(1, p) + Frame(2, q));
    FrameLength(1, p);
    FrameLength(2, q);
    assert Apply(START, Request(true)) == s1;
    assert Apply(s1, Request(true)) == s2;
    assert Apply(s2, Answer(p)) == s3;
    assert Apply(s3, Answer(q)) == s4;
    assert Apply(s4, Arrive(16 + |p| + |q|)) == s5;
    PeeksFrame(1, p, Frame(2, q), s5.arrived);
    assert Apply(s5, Peek(0)) == TwoAnswered(p, q);
    ThenNothing(TwoAnswered(p, q));
    assert [Peek(0)] + [] == [Peek(0)];
    Then(s5, Peek(0), []);
    Then(s4, Arrive(16 + |p| + |q|), [Peek(0)]);
    Then(s3, Answer(q), [Arrive(16 + |p| + |q|)] + [Peek(0)]);
    Then(s2, Answer(p), [Answer(q)] + ([Arrive(16 + |p| + |q|)] + [Peek(0)]));
    Then(s1, Request(true), [Answer(p)] + ([Answer(q)] + ([Arrive(16 + |p| + |q|)] + [Peek(0)])));
    Then(START, Request(true),
         [Request(true)] + ([Answer(p)] + ([Answer(q)] + ([Arrive(16 + |p| + |q|)] + [Peek(0)]))));
  }

  lemma {:induction false} RunOn(s: State, a: seq<Action>, b: seq<Action>)
    requires Possible(s, a) && Possible(Run(s, a), b)
    ensures Possible(s, a + b) && Run(s, a + b) == Run(Run(s, a), b)
    decreases |a|
  {
    hide Enabled, Apply;
    if a == [] {
      assert a + b == b;
    } else {
      RunOn(Apply(s, a[0]), a[1..], b);
      assert a + b == [a[0]] + (a[1..] + b);
      Then(s, a[0], a[1..] + b);
    }
  }

  /**
   The run in which the first operation reads `n` bytes of its response `p`,
   ends with a broker error, so that the connection stays open, and the second
   one, for which the response `q` is there, changes nothing when it polls.
   */
  ghost predicate Stalls(p: seq<byte>, q: seq<byte>, n: nat) {
    var actions := ToTwoAnswered(p, q) + ([Consume(0, n)] + [Finish(0, BrokerError)]);
    && Possible(START, actions)
    && (var s := Run(START, actions);
        && !s.closed && s.lock.None? && s.replies == [p, q] && |s.ops| == 2 && s.ops[1] == Op(2, Waiting, [])
        && Enabled(s, Peek(1)) && Apply(s, Peek(1)) == s)
  }

  /** Four bytes left of one response stall the next operation. */
  lemma SecondPolls(body: seq<byte>, throttle: int, q: seq<byte>)
    requires -0x8000_0000 <= throttle < 0x8000_0000 && |body| + 8 < 0x8000_0000 && |q| + 4 < 0x8000_0000
    ensures Stalls(body + Int32(throttle), q, |body|)
  {
    hide Frame, Signed, Possible, Run, BigEndian;
    var p := body + Int32(throttle);
    TwoRequests(p, q);
    var s := TwoAnswered(p, q);
    var t := Apply(s, Consume(0, |body|));
    assert t.arrived == Int32(throttle) + Frame(2, q);
    var u := Apply(t, Finish(0, BrokerError));
    ThenNothing(u);
    assert [Finish(0, BrokerError)] + [] == [Finish(0, BrokerError)];
    Then(t, Finish(0, BrokerError), []);
    Then(s, Consume(0, |body|), [Finish(0, BrokerError)]);
    RunOn(START, ToTwoAnswered(p, q), [Consume(0, |body|)] + [Finish(0, BrokerError)]);
    FrameLength(2, q);
    assert Frame(2, q) + [] == Frame(2, q);
    LeftoverMisleads(u, 1, throttle, 2, q, []);
  }
}
