/**
 The batching loop of a partition writer (writer.go, writer.run): messages come
 in one by one, are collected by count, bytes and time, and leave in batches.
 */
module PartitionWriter {
  import opened Sender
  import opened Wire
  import MessageSet

  datatype Channel = NoChannel | Channel(id: nat)

  /** writerMessage: a message and where its outcome is to be sent. */
  datatype Queued = Queued(msg: Message, res: Channel)

  const ZERO := Queued(Message(Nil, Nil), NoChannel)

  datatype Config = Config(batchSize: nat, maxBytes: int, retries: int)

  /** What the select statement can receive. */
  datatype Event = Arrive(q: Queued) | Closed | Tick

  /** The variables of the loop, and the batches handed to writer.write so far. */
  datatype Loop = Loop(batch: seq<Message>, resch: seq<Channel>, last: Queued, bytes: int, timer: bool, done: bool,
                       sent: seq<seq<Queued>>)

  const START := Loop([], [], ZERO, 0, false, false, [])

  function Zip(batch: seq<Message>, resch: seq<Channel>): (z: seq<Queued>)
    requires |batch| == |resch|
    ensures |z| == |batch|
  {
    seq(|batch|, i requires 0 <= i < |batch| => Queued(batch[i], resch[i]))
  }

  function Append(s: Loop, q: Queued): Loop {
    s.(batch := s.batch + [q.msg], resch := s.resch + [q.res], bytes := s.bytes + q.msg.Size())
  }

  /** The top of the loop: a held-over message, recognised by its value, opens the next batch. */
  function Refill(s: Loop): Loop {
    if s.last.msg.value.Len() != 0 then Append(s, s.last).(last := ZERO, timer := true) else s
  }

  /** mustFlush. */
  function Flush(s: Loop): Loop
    requires |s.batch| == |s.resch|
  {
    if s.batch == [] then s.(timer := false)
    else s.(batch := [], resch := [], bytes := 0, timer := false, sent := s.sent + [Zip(s.batch, s.resch)])
  }

  /** The select statement and what follows; a timer that is not armed cannot fire. */
  function Select(c: Config, s: Loop, e: Event): Loop
    requires |s.batch| == |s.resch|
  {
    match e
    case Closed => Flush(s.(done := true, timer := true))
    case Tick => if s.timer then Flush(s.(timer := false)) else s
    case Arrive(q) =>
      if q.msg.Size() + s.bytes > c.maxBytes then Flush(s.(last := q))
      else
        var t := Append(s, q).(timer := true);
        if |t.batch| >= c.batchSize || t.bytes >= c.maxBytes then Flush(t) else t
  }

  /** The loop over a run of events. */
  function Run(c: Config, s: Loop, events: seq<Event>): (r: Loop)
    requires |s.batch| == |s.resch|
    ensures |r.batch| == |r.resch|
    decreases |events|
  {
    if events == [] || s.done then s else Run(c, Select(c, Refill(s), events[0]), events[1..])
  }

  // ---------------------------------------------------------------------
  // Every batch is sent, every message of it answered
  // ---------------------------------------------------------------------

  /** What is put on the reply channel of a message. */
  datatype Answer = Answer(q: Queued, reply: Reply)

  /** The answers to a batch that was sent with or without success. */
  function Answers(batch: seq<Queued>, ok: bool): (r: seq<Answer>)
    ensures |r| == |batch|
  {
    seq(|batch|, i requires 0 <= i < |batch| => Answer(batch[i], if ok then Ack else Rejected(batch[i].msg)))
  }

  /** The batch that a pass of the loop handed over, if any. */
  function NewBatch(before: Loop, after: Loop): seq<Queued> {
    if |after.sent| > |before.sent| then after.sent[|before.sent|] else []
  }

  function Answered(answers: seq<Answer>): (r: seq<Queued>)
    ensures |r| == |answers|
  {
    seq(|answers|, i requires 0 <= i < |answers| => answers[i].q)
  }

  /** The messages that were acknowledged. */
  function Acked(answers: seq<Answer>): seq<Queued> {
    if answers == [] then []
    else Acked(answers[..|answers| - 1]) + if answers[|answers| - 1].reply.Ack? then [answers[|answers| - 1].q] else []
  }

  lemma {:induction false} AckedAppend(a: seq<Answer>, b: seq<Answer>)
    ensures Acked(a + b) == Acked(a) + Acked(b)
    decreases |b|
  {
    if b == [] {
      assert a + b == a;
    } else {
      var init := b[..|b| - 1];
      assert (a + b)[..|a + b| - 1] == a + init;
      AckedAppend(a, init);
    }
  }

  lemma {:induction false} AckedAnswers(batch: seq<Queued>, ok: bool)
    ensures Acked(Answers(batch, ok)) == if ok then batch else []
    decreases |batch|
  {
    if batch != [] {
      var init := batch[..|batch| - 1];
      AckedAnswers(init, ok);
      assert Answers(batch, ok)[..|batch| - 1] == Answers(init, ok);
    }
  }

  /** The variables of writer.run, changed in place pass by pass. */
  class Batcher {
    const config: Config
    const broker: Broker
    var connected: bool
    var batch: seq<Message>
    var resch: seq<Channel>
    var last: Queued
    var bytes: int
    var timer: bool
    var done: bool
    var sent: seq<seq<Queued>>

    function View(): Loop
      reads this
    {
      Loop(batch, resch, last, bytes, timer, done, sent)
    }

    constructor (config: Config, broker: Broker)
      ensures this.config == config && this.broker == broker && View() == START && !connected
    {
      this.config, this.broker, connected := config, broker, false;
      batch, resch, last, bytes := [], [], ZERO, 0;
      timer, done, sent := false, false, [];
    }

    method TakeHeldOver()
      modifies this
      ensures View() == Refill(old(View())) && sent == old(sent) && connected == old(connected)
    {
      if last.msg.value.Len() != 0 {
        batch, resch := batch + [last.msg], resch + [last.res];
        bytes := bytes + last.msg.Size();
        last := ZERO;
        if !timer {
          timer := true;
        }
      }
    }

    method Receive(e: Event) returns (mustFlush: bool)
      requires |batch| == |resch|
      modifies this
      ensures |batch| == |resch| && sent == old(sent) && connected == old(connected)
      ensures Select(config, old(View()), e) == if mustFlush then Flush(View()) else View()
    {
      mustFlush := false;
      match e {
        case Closed =>
          done, mustFlush := true, true;
          if !timer {
            timer := true;
          }
        case Tick =>
          if timer {
            mustFlush, timer := true, false;
          }
        case Arrive(q) =>
          if q.msg.Size() + bytes > config.maxBytes {
            mustFlush := true;
            last := q;
          } else {
            batch, resch := batch + [q.msg], resch + [q.res];
            bytes := bytes + q.msg.Size();
            mustFlush := |batch| >= config.batchSize || bytes >= config.maxBytes;
            if !timer {
              timer := true;
            }
          }
      }
    }

    /**
     The batch goes to writer.write, whose replies go to the channels of its own
     messages; the connection outlives a batch only if that was written.
     */
    method Send() returns (ok: bool, out: seq<Answer>)
      requires |batch| == |resch|
      modifies this, broker
      ensures View() == Flush(old(View()))
      ensures out == Answers(Zip(old(batch), old(resch)), ok)
      ensures broker.holds == if ok then old(broker.holds) + [old(batch)] else old(broker.holds)
      ensures old(batch) == [] ==> !ok
      ensures connected == if old(batch) == [] then old(connected) else ok
    {
      ok, out := false, [];
      if timer {
        timer := false;
      }
      if |batch| != 0 {
        var open, replies;
        ghost var passes;
        open, ok, replies, passes := Write(broker, connected, batch, config.retries);
        connected := open && ok;
        out := PutReplies(batch, resch, replies, ok);
        sent := sent + [Zip(batch, resch)];
        batch, resch, bytes := [], [], 0;
      }
    }

    /** One pass of the loop. */
    method Handle(e: Event) returns (ok: bool, out: seq<Answer>)
      requires |batch| == |resch|
      modifies this, broker
      ensures View() == Select(config, Refill(old(View())), e)
      ensures out == Answers(NewBatch(old(View()), View()), ok)
      ensures var b := NewBatch(old(View()), View());
              && (ok ==> b != [])
              && (connected <==> if b == [] then old(connected) else ok)
              && broker.holds == if ok then old(broker.holds) + [Messages(b)] else old(broker.holds)
    {
      hide Answers, Refill, Select, Zip;
      ghost var s := View();
      TakeHeldOver();
      ghost var r := View();
      RefillDone(s);
      var mustFlush := Receive(e);
      ghost var t := View();
      ok, out := false, [];
      if mustFlush {
        MessagesZip(t.batch, t.resch);
        ok, out := Send();
      }
      PassSends(config, s, e, t, mustFlush);
    }

    /**
     writer.run over a run of events: every message handed over is answered
     once, in order and on its own channel, and acknowledged exactly with
     the batches that the broker came to hold.
     */
    method Execute(events: seq<Event>) returns (answers: seq<Answer>, ghost held: seq<seq<Queued>>)
      requires View() == START
      modifies this, broker
      ensures View() == Run(config, START, events)
      ensures Answered(answers) == Flat(sent)
      ensures Acked(answers) == Flat(held)
      ensures forall i :: 0 <= i < |held| ==> held[i] in sent
      ensures broker.holds == old(broker.holds) + Contents(held)
      ensures Closes(events) ==> Answered(answers) == Kept(config, START, events)
    {
      hide Run, Refill, Select, Flush, Flat, Acked, Answers, Kept;
      answers, held := [], [];
      var i := 0;
      assert events[0..] == events;
      FlatNothing();
      while !done && i < |events|
        invariant 0 <= i <= |events| && |batch| == |resch|
        invariant Run(config, View(), events[i..]) == Run(config, START, events)
        invariant Answered(answers) == Flat(sent) && Acked(answers) == Flat(held)
        invariant forall k :: 0 <= k < |held| ==> held[k] in sent
        invariant broker.holds == old(broker.holds) + Contents(held)
        decreases |events| - i
      {
        ghost var before := View();
        RunStep(config, before, events[i..]);
        assert events[i..][1..] == events[i + 1..];
        SelectDone(config, Refill(before), events[i]);
        var ok, out := Handle(events[i]);
        SentGrows(config, before, events[i]);
        ghost var b := NewBatch(before, View());
        AnswersAppend(answers, b, ok, out, before.sent, sent, held);
        answers := answers + out;
        if ok {
          ContentsAppend(held, b);
          held := held + [b];
        }
        i := i + 1;
      }
      RunEnds(config, View(), events[i..]);
      if Closes(events) {
        CloseFlushesAllIff(config, events);
      }
    }
  }

  /** The messages of some batches. */
  function Contents(batches: seq<seq<Queued>>): (r: seq<seq<Message>>)
    ensures |r| == |batches|
  {
    seq(|batches|, i requires 0 <= i < |batches| => Messages(batches[i]))
  }

  lemma ContentsAppend(batches: seq<seq<Queued>>, b: seq<Queued>)
    ensures Contents(batches + [b]) == Contents(batches) + [Messages(b)]
  {
  }

  /** The loops that put a reply on every channel. */
  method PutReplies(batch: seq<Message>, resch: seq<Channel>, replies: seq<Reply>, ghost ok: bool)
    returns (out: seq<Answer>)
    requires |batch| == |resch| && replies == Replies(batch, ok)
    ensures out == Answers(Zip(batch, resch), ok)
  {
    out := [];
    for i := 0 to |resch|
      invariant out == Answers(Zip(batch, resch), ok)[..i]
    {
      out := out + [Answer(Queued(batch[i], resch[i]), replies[i])];
    }
  }

  lemma FlatNothing()
    ensures Flat([]) == [] && Acked([]) == []
  {
  }

  /** What a pass sends: the batch as it stands after the select, if it must be flushed. */
  lemma PassSends(c: Config, s: Loop, e: Event, t: Loop, mustFlush: bool)
    requires |s.batch| == |s.resch| && |t.batch| == |t.resch| && t.sent == s.sent
    requires |Refill(s).batch| == |Refill(s).resch|
    requires Select(c, Refill(s), e) == if mustFlush then Flush(t) else t
    ensures NewBatch(s, Select(c, Refill(s), e)) == if mustFlush then Zip(t.batch, t.resch) else []
    ensures Answers([], false) == []
  {
    hide Select, Refill;
  }

  /** A pass hands over at most one batch, never an empty one. */
  lemma SentGrows(c: Config, s: Loop, e: Event)
    requires |s.batch| == |s.resch| && |Refill(s).batch| == |Refill(s).resch|
    ensures var t := Select(c, Refill(s), e);
            t.sent == if NewBatch(s, t) == [] then s.sent else s.sent + [NewBatch(s, t)]
  {
  }

  lemma AnswersAppend(answers: seq<Answer>, b: seq<Queued>, ok: bool, out: seq<Answer>, before: seq<seq<Queued>>,
                      after: seq<seq<Queued>>, held: seq<seq<Queued>>)
    requires Answered(answers) == Flat(before) && Acked(answers) == Flat(held)
    requires out == Answers(b, ok) && after == if b == [] then before else before + [b]
    ensures Answered(answers + out) == Flat(after)
    ensures Acked(answers + out) == Flat(if ok && b != [] then held + [b] else held)
  {
    hide Flat, Acked;
    FlatAppend(before, b);
    FlatAppend(held, b);
    AckedAppend(answers, out);
    AckedAnswers(b, ok);
    assert Answered(answers + out) == Answered(answers) + b;
  }

  lemma RunEnds(c: Config, s: Loop, events: seq<Event>)
    requires |s.batch| == |s.resch| && (s.done || events == [])
    ensures Run(c, s, events) == s
  {
  }

  lemma RunStep(c: Config, s: Loop, events: seq<Event>)
    requires |s.batch| == |s.resch| && events != [] && !s.done
    ensures |Refill(s).batch| == |Refill(s).resch|
    ensures Run(c, s, events) == Run(c, Select(c, Refill(s), events[0]), events[1..])
  {
  }

  // ---------------------------------------------------------------------
  // Nothing is lost, duplicated or reordered
  // ---------------------------------------------------------------------

  function Flat(batches: seq<seq<Queued>>): seq<Queued> {
    if batches == [] then [] else Flat(batches[..|batches| - 1]) + batches[|batches| - 1]
  }

  function Held(s: Loop): seq<Queued> {
    if s.last.msg.value.Len() != 0 then [s.last] else []
  }

  /** Everything the loop has taken in and still knows about, in order. */
  function Known(s: Loop): seq<Queued>
    requires |s.batch| == |s.resch|
  {
    Flat(s.sent) + Zip(s.batch, s.resch) + Held(s)
  }

  function Arrivals(events: seq<Event>): seq<Queued> {
    if events == [] || events[0].Closed? then []
    else (if events[0].Arrive? then [events[0].q] else []) + Arrivals(events[1..])
  }

  /** The message does not fit the batch and its empty value hides it from the next pass. */
  predicate Drops(c: Config, s: Loop, e: Event) {
    e.Arrive? && e.q.msg.Size() + s.bytes > c.maxBytes && e.q.msg.value.Len() == 0
  }

  /** The messages that are held over with an empty value during a run, in order. */
  function Dropped(c: Config, s: Loop, events: seq<Event>): seq<Queued>
    requires |s.batch| == |s.resch|
    decreases |events|
  {
    if events == [] || s.done then []
    else
      var r := Refill(s);
      (if Drops(c, r, events[0]) then [events[0].q] else []) + Dropped(c, Select(c, r, events[0]), events[1..])
  }

  /** The arrivals outside that branch, in order. */
  function Kept(c: Config, s: Loop, events: seq<Event>): seq<Queued>
    requires |s.batch| == |s.resch|
    decreases |events|
  {
    if events == [] || s.done then []
    else
      var r, e := Refill(s), events[0];
      (if e.Arrive? && !Drops(c, r, e) then [e.q] else []) + Kept(c, Select(c, r, e), events[1..])
  }

  /** `all` is `a` and `b` shuffled into one another, each in its own order. */
  ghost predicate Shuffles(all: seq<Queued>, a: seq<Queued>, b: seq<Queued>)
    decreases |all|
  {
    if all == [] then a == [] && b == []
    else
      || (a != [] && a[0] == all[0] && Shuffles(all[1..], a[1..], b))
      || (b != [] && b[0] == all[0] && Shuffles(all[1..], a, b[1..]))
  }

  lemma ShuffleNext(q: Queued, all: seq<Queued>, a: seq<Queued>, b: seq<Queued>)
    requires Shuffles(all, a, b)
    ensures Shuffles([q] + all, [q] + a, b) && Shuffles([q] + all, a, [q] + b)
  {
    assert ([q] + all)[1..] == all && ([q] + a)[1..] == a && ([q] + b)[1..] == b;
  }

  lemma ZipAppend(batch: seq<Message>, resch: seq<Channel>, q: Queued)
    requires |batch| == |resch|
    ensures Zip(batch + [q.msg], resch + [q.res]) == Zip(batch, resch) + [q]
  {
  }

  lemma FlatAppend(batches: seq<seq<Queued>>, b: seq<Queued>)
    ensures Flat(batches + [b]) == Flat(batches) + b
  {
    assert (batches + [b])[..|batches|] == batches;
  }

  lemma RefillKeeps(s: Loop)
    requires |s.batch| == |s.resch|
    ensures Known(Refill(s)) == Known(s) && Held(Refill(s)) == []
  {
    if Held(s) != [] {
      ZipAppend(s.batch, s.resch, s.last);
      Assoc(Flat(s.sent), Zip(s.batch, s.resch), [s.last]);
    }
  }

  lemma FlushKeeps(s: Loop)
    requires |s.batch| == |s.resch|
    ensures Known(Flush(s)) == Known(s)
  {
    if s.batch != [] {
      FlatAppend(s.sent, Zip(s.batch, s.resch));
      assert Zip([], []) == [];
    }
  }

  lemma SelectKeeps(c: Config, s: Loop, e: Event)
    requires |s.batch| == |s.resch| && Held(s) == []
    ensures Known(Select(c, s, e)) == Known(s) + if e.Arrive? && !Drops(c, s, e) then [e.q] else []
  {
    hide Flush, Flat;
    match e {
      case Closed =>
        FlushKeeps(s.(done := true, timer := true));
      case Tick =>
        FlushKeeps(s.(timer := false));
      case Arrive(q) =>
        if q.msg.Size() + s.bytes > c.maxBytes {
          FlushKeeps(s.(last := q));
        } else {
          var t := Append(s, q).(timer := true);
          ZipAppend(s.batch, s.resch, q);
          Assoc(Flat(s.sent), Zip(s.batch, s.resch), [q]);
          FlushKeeps(t);
        }
    }
  }

  /** Order and content: what the loop knows is exactly what arrived and was not dropped, in the order it arrived. */
  lemma {:induction false} RunKeeps(c: Config, s: Loop, events: seq<Event>)
    requires |s.batch| == |s.resch| && !s.done
    ensures Known(Run(c, s, events)) == Known(s) + Kept(c, s, events)
    decreases |events|
  {
    hide Known, Refill, Select;
    if events == [] {
      assert Known(s) + [] == Known(s);
    } else {
      var e, r := events[0], Refill(s);
      RefillKeeps(s);
      RefillDone(s);
      SelectKeeps(c, r, e);
      SelectDone(c, r, e);
      var t := Select(c, r, e);
      var first := if e.Arrive? && !Drops(c, r, e) then [e.q] else [];
      if e.Closed? {
        RunEnds(c, t, events[1..]);
      } else {
        RunKeeps(c, t, events[1..]);
      }
      Assoc(Known(s), first, Kept(c, t, events[1..]));
    }
  }

  /** What is kept and what is dropped are together what arrived, each in the order of arrival. */
  lemma {:induction false} KeptArrivals(c: Config, s: Loop, events: seq<Event>)
    requires |s.batch| == |s.resch| && !s.done
    ensures Shuffles(Arrivals(events), Kept(c, s, events), Dropped(c, s, events))
    ensures |Kept(c, s, events)| + |Dropped(c, s, events)| == |Arrivals(events)|
    ensures Dropped(c, s, events) == [] ==> Kept(c, s, events) == Arrivals(events)
    decreases |events|
  {
    hide Refill, Select;
    if events != [] {
      var e, r := events[0], Refill(s);
      RefillDone(s);
      SelectDone(c, r, e);
      if !e.Closed? {
        var t := Select(c, r, e);
        KeptArrivals(c, t, events[1..]);
        var all, kept, dropped := Arrivals(events[1..]), Kept(c, t, events[1..]), Dropped(c, t, events[1..]);
        assert [] + all == all && [] + kept == kept && [] + dropped == dropped;
        if e.Arrive? {
          ShuffleNext(e.q, all, kept, dropped);
        }
      }
    }
  }

  lemma RefillDone(s: Loop)
    requires |s.batch| == |s.resch|
    ensures |Refill(s).batch| == |Refill(s).resch| && Refill(s).done == s.done
  {
  }

  lemma SelectDone(c: Config, s: Loop, e: Event)
    requires |s.batch| == |s.resch|
    ensures var t := Select(c, s, e);
            && |t.batch| == |t.resch| && t.done == (s.done || e.Closed?)
            && (e.Closed? ==> t.batch == [] && t.last == s.last)
  {
  }

  ghost predicate Closes(events: seq<Event>) {
    |events| > 0 && events[|events| - 1].Closed? && forall i :: 0 <= i < |events| - 1 ==> !events[i].Closed?
  }

  lemma {:induction false} ClosedIsFlushed(c: Config, s: Loop, events: seq<Event>)
    requires |s.batch| == |s.resch| && !s.done && Closes(events)
    ensures var r := Run(c, s, events); r.done && r.batch == [] && Held(r) == []
    decreases |events|
  {
    hide Refill, Select, Known;
    var e, r := events[0], Refill(s);
    RefillKeeps(s);
    RefillDone(s);
    SelectDone(c, r, e);
    if |events| > 1 {
      ClosedIsFlushed(c, Select(c, r, e), events[1..]);
    }
  }

  /**
   A run that ends by closing hands over, in order and each with its own reply
   channel, the messages that were not dropped; these are all exactly when no
   message with an empty value was held over.
   */
  lemma CloseFlushesAllIff(c: Config, events: seq<Event>)
    requires Closes(events)
    ensures Flat(Run(c, START, events).sent) == Kept(c, START, events)
    ensures Flat(Run(c, START, events).sent) == Arrivals(events) <==> Dropped(c, START, events) == []
  {
    hide Run, Flat, Kept;
    var r := Run(c, START, events);
    ClosedIsFlushed(c, START, events);
    RunKeeps(c, START, events);
    KeptArrivals(c, START, events);
    StartKnowsNothing();
    assert Zip(r.batch, r.resch) == [];
    assert Known(r) == Flat(r.sent);
  }

  lemma StartKnowsNothing()
    ensures Known(START) == []
  {
  }

  /** As long as every message has a value, none is dropped. */
  lemma {:induction false} ValuesAreKept(c: Config, s: Loop, events: seq<Event>)
    requires |s.batch| == |s.resch|
    requires forall i :: 0 <= i < |events| && events[i].Arrive? ==> events[i].q.msg.value.Len() > 0
    ensures Dropped(c, s, events) == []
    decreases |events|
  {
    hide MessageSet.Size;
    if events != [] && !s.done {
      ValuesAreKept(c, Select(c, Refill(s), events[0]), events[1..]);
    }
  }

  /** One such message: it is larger than what is left of the batch, has no value, and never leaves the loop. */
  lemma DroppedMessage()
    ensures var c := Config(100, 30, 0);
            var m := Queued(Message(Nil, Bytes([1])), Channel(1));
            var lost := Queued(Message(Nil, Nil), Channel(2));
            Flat(Run(c, START, [Arrive(m), Arrive(lost), Closed]).sent) == [m]
  {
    var c := Config(100, 30, 0);
    var m := Queued(Message(Nil, Bytes([1])), Channel(1));
    var lost := Queued(Message(Nil, Nil), Channel(2));
    var s1 := Select(c, Refill(START), Arrive(m));
    var s2 := Select(c, Refill(s1), Arrive(lost));
    assert s1.batch == [m.msg] && s1.resch == [m.res] && s1.bytes == 23;
    assert Zip(s1.batch, s1.resch) == [m];
    assert s2 == Loop([], [], lost, 0, false, false, [[m]]);
    var s3 := Select(c, Refill(s2), Closed);
    assert [Arrive(m), Arrive(lost), Closed][1..] == [Arrive(lost), Closed];
    assert [Arrive(lost), Closed][1..] == [Closed];
    assert Run(c, s2, [Closed]) == s3;
    assert Run(c, s1, [Arrive(lost), Closed]) == s3;
    assert Flat([[m]]) == [] + [m];
  }

  // ---------------------------------------------------------------------
  // Limits and the timer
  // ---------------------------------------------------------------------

  function Total(batch: seq<Message>): nat {
    if batch == [] then 0 else Total(batch[..|batch| - 1]) + batch[|batch| - 1].Size()
  }

  function Messages(qs: seq<Queued>): (r: seq<Message>)
    ensures |r| == |qs|
  {
    seq(|qs|, i requires 0 <= i < |qs| => qs[i].msg)
  }

  ghost predicate WithinLimits(c: Config, b: seq<Queued>) {
    1 <= |b| <= c.batchSize && Total(Messages(b)) <= c.maxBytes
  }

  /** The loop between two passes. */
  ghost predicate Ready(c: Config, s: Loop) {
    && |s.batch| == |s.resch| < c.batchSize
    && s.bytes == Total(s.batch) <= c.maxBytes
    && (Held(s) != [] ==> s.batch == [] && s.last.msg.Size() <= c.maxBytes && c.batchSize >= 2)
    && (s.batch != [] ==> s.timer)
    && forall i :: 0 <= i < |s.sent| ==> WithinLimits(c, s.sent[i])
  }

  /** The loop where it blocks in select. */
  ghost predicate Blocked(c: Config, s: Loop) {
    Ready(c, s) && Held(s) == []
  }

  lemma TotalAppend(batch: seq<Message>, m: Message)
    ensures Total(batch + [m]) == Total(batch) + m.Size()
  {
    assert (batch + [m])[..|batch|] == batch;
  }

  lemma MessagesZip(batch: seq<Message>, resch: seq<Channel>)
    requires |batch| == |resch|
    ensures Messages(Zip(batch, resch)) == batch
  {
  }

  lemma RefillReady(c: Config, s: Loop)
    requires Ready(c, s)
    ensures Blocked(c, Refill(s))
  {
    hide WithinLimits, Total;
    if Held(s) != [] {
      TotalEmpty();
      TotalAppend(s.batch, s.last.msg);
    }
  }

  lemma FlushReady(c: Config, s: Loop)
    requires |s.batch| == |s.resch| <= c.batchSize && s.bytes == Total(s.batch) <= c.maxBytes && c.batchSize >= 1
    requires Held(s) != [] ==> s.last.msg.Size() <= c.maxBytes && c.batchSize >= 2
    requires forall i :: 0 <= i < |s.sent| ==> WithinLimits(c, s.sent[i])
    ensures Ready(c, Flush(s))
  {
    if s.batch != [] {
      MessagesZip(s.batch, s.resch);
      hide Messages, Zip, Total;
      assert WithinLimits(c, Zip(s.batch, s.resch));
      TotalEmpty();
    }
  }

  lemma TotalEmpty()
    ensures Total([]) == 0
  {
  }

  lemma SelectReady(c: Config, s: Loop, e: Event)
    requires Blocked(c, s) && (e.Arrive? ==> e.q.msg.Size() <= c.maxBytes)
    ensures Ready(c, Select(c, s, e))
  {
    hide WithinLimits, Flush, Total;
    TotalEmpty();
    match e {
      case Closed =>
        FlushReady(c, s.(done := true, timer := true));
      case Tick =>
        FlushReady(c, s.(timer := false));
      case Arrive(q) =>
        if q.msg.Size() + s.bytes > c.maxBytes {
          FlushReady(c, s.(last := q));
        } else {
          var t := Append(s, q).(timer := true);
          TotalAppend(s.batch, q.msg);
          FlushReady(c, t);
        }
    }
  }

  /**
   With messages no larger than the byte limit, as WriteMessages lets through,
   every batch holds at least one message and respects both limits, and the
   loop never blocks on a non-empty batch without an armed timer.
   */
  lemma {:induction false} RunReady(c: Config, s: Loop, events: seq<Event>)
    requires Ready(c, s) && forall i :: 0 <= i < |events| && events[i].Arrive? ==> events[i].q.msg.Size() <= c.maxBytes
    ensures Ready(c, Run(c, s, events))
    ensures Blocked(c, Refill(Run(c, s, events)))
    decreases |events|
  {
    hide Ready, Refill, Select;
    RefillReady(c, s);
    if events != [] && !s.done {
      assert events[0].Arrive? ==> events[0].q.msg.Size() <= c.maxBytes;
      SelectReady(c, Refill(s), events[0]);
      ReadyPaired(c, s);
      RunReady(c, Select(c, Refill(s), events[0]), events[1..]);
    }
  }

  lemma ReadyPaired(c: Config, s: Loop)
    requires Ready(c, s)
    ensures |s.batch| == |s.resch| && |Refill(s).batch| == |Refill(s).resch|
  {
  }

  lemma BatchesWithinLimits(c: Config, events: seq<Event>)
    requires c.batchSize >= 1 && c.maxBytes >= 0
    requires forall i :: 0 <= i < |events| && events[i].Arrive? ==> events[i].q.msg.Size() <= c.maxBytes
    ensures forall b :: b in Run(c, START, events).sent ==> WithinLimits(c, b)
    ensures var s := Refill(Run(c, START, events)); s.batch != [] ==> s.timer
  {
    hide WithinLimits, Run;
    RunReady(c, START, events);
  }

  // ---------------------------------------------------------------------
  // When a batch leaves
  // ---------------------------------------------------------------------

  /** The loop without its timer and its held-over message: the batches sent, and what waits to be sent. */
  datatype Buffer = Buffer(sent: seq<seq<Queued>>, pending: seq<Queued>, done: bool)

  /** The message does not fit what is pending. */
  predicate Overflows(c: Config, pending: seq<Queued>, q: Queued) {
    q.msg.Size() + Total(Messages(pending)) > c.maxBytes
  }

  /** What is pending has reached one of the limits. */
  predicate Full(c: Config, pending: seq<Queued>) {
    |pending| >= c.batchSize || Total(Messages(pending)) >= c.maxBytes
  }

  function Out(x: Buffer, b: seq<Queued>, rest: seq<Queued>): Buffer {
    Buffer(if b == [] then x.sent else x.sent + [b], rest, x.done)
  }

  /**
   What is pending leaves, all at once, on closing, on a tick, ahead of a
   message that does not fit, and together with a message that fills it.
   */
  function Pass(c: Config, x: Buffer, e: Event): Buffer {
    match e
    case Closed => Out(x, x.pending, []).(done := true)
    case Tick => Out(x, x.pending, [])
    case Arrive(q) =>
      if Overflows(c, x.pending, q) then Out(x, x.pending, if q.msg.value.Len() != 0 then [q] else [])
      else if Full(c, x.pending + [q]) then Out(x, x.pending + [q], [])
      else x.(pending := x.pending + [q])
  }

  function Passes(c: Config, x: Buffer, events: seq<Event>): Buffer
    decreases |events|
  {
    if events == [] || x.done then x else Passes(c, Pass(c, x, events[0]), events[1..])
  }

  function Buffered(s: Loop): Buffer
    requires |s.batch| == |s.resch|
  {
    Buffer(s.sent, Zip(s.batch, s.resch) + Held(s), s.done)
  }

  /** The timer is armed exactly while there is a batch, and its bytes are counted. */
  ghost predicate Armed(s: Loop) {
    |s.batch| == |s.resch| && s.bytes == Total(s.batch) && (s.batch != [] <==> s.timer)
  }

  lemma RefillArmed(s: Loop)
    requires Armed(s)
    ensures var r := Refill(s);
            Armed(r) && Held(r) == [] && Buffered(r) == Buffered(s) && Zip(r.batch, r.resch) == Buffered(s).pending
  {
    hide Total;
    TotalAppend(s.batch, s.last.msg);
    ZipAppend(s.batch, s.resch, s.last);
  }

  lemma FlushArmed(s: Loop)
    requires |s.batch| == |s.resch| && s.bytes == Total(s.batch)
    ensures Armed(Flush(s)) && Buffered(Flush(s)) == Out(Buffered(s), Zip(s.batch, s.resch), Held(s))
  {
    assert Zip([], []) == [];
    assert [] + Held(s) == Held(s);
  }

  lemma ArrivalPasses(c: Config, s: Loop, q: Queued)
    requires Armed(s) && Held(s) == []
    ensures Armed(Select(c, s, Arrive(q)))
    ensures Buffered(Select(c, s, Arrive(q))) == Pass(c, Buffered(s), Arrive(q))
  {
    hide Flush, Total, Zip, Messages;
    var pending := Zip(s.batch, s.resch);
    MessagesZip(s.batch, s.resch);
    assert pending + [] == pending;
    if Overflows(c, pending, q) {
      FlushArmed(s.(last := q));
    } else {
      var t := Append(s, q).(timer := true);
      TotalAppend(s.batch, q.msg);
      ZipAppend(s.batch, s.resch, q);
      MessagesZip(t.batch, t.resch);
      assert pending + [q] + [] == pending + [q];
      FlushArmed(t);
    }
  }

  lemma SelectPasses(c: Config, s: Loop, e: Event)
    requires Armed(s) && Held(s) == []
    ensures Armed(Select(c, s, e)) && Buffered(Select(c, s, e)) == Pass(c, Buffered(s), e)
  {
    hide Flush, Total, Zip;
    assert Zip(s.batch, s.resch) + [] == Zip(s.batch, s.resch);
    match e {
      case Closed =>
        FlushArmed(s.(done := true, timer := true));
      case Tick =>
        FlushArmed(s.(timer := false));
        assert !s.timer ==> s.batch == [] && |Zip(s.batch, s.resch)| == 0;
      case Arrive(q) =>
        ArrivalPasses(c, s, q);
    }
  }

  /**
   In every run the loop with its timer and its held-over message does what the
   plain buffer does; in particular it never blocks on something pending without
   an armed timer.
   */
  lemma {:induction false} RunPasses(c: Config, s: Loop, events: seq<Event>)
    requires Armed(s)
    ensures var r := Run(c, s, events);
            Armed(r) && Armed(Refill(r)) && Buffered(r) == Passes(c, Buffered(s), events)
    decreases |events|
  {
    hide Armed, Buffered, Refill, Select, Pass;
    RefillArmed(s);
    if events != [] && !s.done {
      ArmedPaired(s);
      SelectPasses(c, Refill(s), events[0]);
      RunPasses(c, Select(c, Refill(s), events[0]), events[1..]);
    }
    ArmedPaired(s);
  }

  lemma ArmedPaired(s: Loop)
    requires Armed(s)
    ensures |s.batch| == |s.resch| && |Refill(s).batch| == |Refill(s).resch| && Buffered(s).done == s.done
  {
  }

  lemma {:induction false} RunAppend(c: Config, s: Loop, events: seq<Event>, e: Event)
    requires |s.batch| == |s.resch| && !Run(c, s, events).done
    ensures var r := Run(c, s, events);
            |Refill(r).batch| == |Refill(r).resch| && Run(c, s, events + [e]) == Select(c, Refill(r), e)
    decreases |events|
  {
    hide Refill, Select;
    RefillDone(s);
    if events == [] {
      assert ([] + [e])[1..] == [] && ([] + [e])[0] == e;
      assert events + [e] == [] + [e];
      RunStep(c, s, [] + [e]);
      SelectDone(c, Refill(s), e);
      RunEnds(c, Select(c, Refill(s), e), []);
    } else if !s.done {
      SelectDone(c, Refill(s), events[0]);
      RunStep(c, s, events);
      RunAppend(c, Select(c, Refill(s), events[0]), events[1..], e);
      assert (events + [e])[0] == events[0] && (events + [e])[1..] == events[1..] + [e];
      RunStep(c, s, events + [e]);
    }
  }

  /**
   In every run of a writer that is still open: whatever is batched, or held over
   with a value, has an armed timer behind it when the loop blocks, and the next
   tick hands over all of it as one batch.
   */
  lemma TickFlushes(c: Config, events: seq<Event>)
    requires !Run(c, START, events).done
    ensures var s, t := Run(c, START, events), Run(c, START, events + [Tick]);
            var pending := Zip(s.batch, s.resch) + Held(s);
            && (pending != [] ==> Refill(s).timer && t.sent == s.sent + [pending])
            && (pending == [] ==> t.sent == s.sent)
            && t.batch == [] && Held(t) == [] && !t.done && !t.timer
  {
    hide Run, Zip, Select;
    var s := Run(c, START, events);
    RunPasses(c, START, events);
    RunAppend(c, START, events, Tick);
    RefillArmed(s);
    SelectPasses(c, Refill(s), Tick);
    RefillDone(s);
    SelectDone(c, Refill(s), Tick);
    var t := Select(c, Refill(s), Tick);
    assert |Zip(t.batch, t.resch)| == |t.batch|;
  }

  /**
   In every run of a writer that is still open: one more event sends a batch
   exactly when something is pending and the event is the end of the channel, a
   tick or a message that does not fit, or when a message that fits fills what is
   pending; and else what is pending stays, with the message behind it.
   */
  lemma LeavesOnly(c: Config, events: seq<Event>, e: Event)
    requires !Run(c, START, events).done
    ensures var s, t := Run(c, START, events), Run(c, START, events + [e]);
            var pending := Zip(s.batch, s.resch) + Held(s);
            var fits := e.Arrive? && !Overflows(c, pending, e.q);
            if fits then
              if Full(c, pending + [e.q]) then t.sent == s.sent + [pending + [e.q]]
              else t.sent == s.sent && Zip(t.batch, t.resch) + Held(t) == pending + [e.q]
            else t.sent == if pending == [] then s.sent else s.sent + [pending]
  {
    hide Run, Zip, Select, Overflows, Full;
    var s := Run(c, START, events);
    RunPasses(c, START, events);
    RunAppend(c, START, events, e);
    RefillArmed(s);
    SelectPasses(c, Refill(s), e);
    SelectDone(c, Refill(s), e);
  }
}
