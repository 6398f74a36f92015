/**
 Everything between WriteMessages and the brokers (writer.go): messages wait
 for the router, the partition writers batch and send them, and the replies
 come back on the channels the messages brought along.  Any number of callers
 share it; ticks, routing and sending happen in any order.
 */
module Delivery {
  import opened PartitionWriter
  import opened Sender
  import opened Wire

  /**
   `queued` is every message ever handed to the router, `waiting` those it has
   not passed on, `answers` all replies in the order they were sent, `held` the
   batches that brokers accepted and `dropped` what the loops lost.
   */
  datatype World = World(
    queued: seq<Queued>, waiting: seq<Queued>, loops: seq<Loop>, answers: seq<Answer>, held: seq<seq<Queued>>,
    dropped: seq<Queued>)

  /** What a partition writer has taken and not yet sent. */
  function Rest(l: Loop): seq<Queued>
    requires |l.batch| == |l.resch|
  {
    Zip(l.batch, l.resch) + Held(l)
  }

  predicate LoopOk(l: Loop) {
    |l.batch| == |l.resch| && (l.done ==> Rest(l) == [])
  }

  predicate AllOk(loops: seq<Loop>) {
    forall i :: 0 <= i < |loops| ==> LoopOk(loops[i])
  }

  function Inside(loops: seq<Loop>): multiset<Queued>
    requires AllOk(loops)
  {
    if loops == [] then multiset{} else Inside(loops[..|loops| - 1]) + multiset(Rest(loops[|loops| - 1]))
  }

  /**
   No message is lost but those dropped and none is answered twice: what was
   queued waits, is inside a writer, was answered or was dropped; and what was
   acknowledged is exactly what the brokers hold.
   */
  ghost predicate Balanced(s: World) {
    && AllOk(s.loops)
    && multiset(s.queued)
    == multiset(s.waiting) + Inside(s.loops) + multiset(Answered(s.answers)) + multiset(s.dropped)
    && multiset(Acked(s.answers)) == multiset(Flat(s.held))
    && forall i :: 0 <= i < |s.answers| ==> s.answers[i].reply in {Ack, Rejected(s.answers[i].q.msg)}
  }

  // ---------------------------------------------------------------------
  // One pass of one writer
  // ---------------------------------------------------------------------

  /** The message of an event that the writer takes: none is taken twice, one in the Drops branch not at all. */
  function Took(c: Config, l: Loop, e: Event): seq<Queued> {
    if e.Arrive? && !Drops(c, Refill(l), e) then [e.q] else []
  }

  function Lost(c: Config, l: Loop, e: Event): seq<Queued> {
    if Drops(c, Refill(l), e) then [e.q] else []
  }

  lemma CancelPrefix<T>(p: seq<T>, a: seq<T>, b: seq<T>)
    requires p + a == p + b
    ensures a == b
  {
    assert a == (p + a)[|p|..];
    assert b == (p + b)[|p|..];
  }

  lemma PassKeeps(c: Config, l: Loop, e: Event)
    requires |l.batch| == |l.resch| && !l.done
    ensures |Refill(l).batch| == |Refill(l).resch|
    ensures var t := Select(c, Refill(l), e);
            LoopOk(t) && NewBatch(l, t) + Rest(t) == Rest(l) + Took(c, l, e)
  {
    hide Select, Refill, Flat;
    RefillKeeps(l);
    RefillDone(l);
    SelectKeeps(c, Refill(l), e);
    SelectDone(c, Refill(l), e);
    SentGrows(c, l, e);
    var t := Select(c, Refill(l), e);
    var b := NewBatch(l, t);
    FlatAppend(l.sent, b);
    Assoc(Flat(l.sent), Zip(l.batch, l.resch), Held(l));
    Assoc(Flat(l.sent), Rest(l), Took(c, l, e));
    Assoc(Flat(t.sent), Zip(t.batch, t.resch), Held(t));
    if b != [] {
      Assoc(Flat(l.sent), b, Rest(t));
    }
    CancelPrefix(Flat(l.sent), b + Rest(t), Rest(l) + Took(c, l, e));
    if e.Closed? {
      assert Zip([], []) == [];
      assert Held(t) == [];
    }
  }

  /** The world after a pass of writer `w`. */
  function Feed(c: Config, s: World, w: nat, e: Event, ok: bool): World
    requires w < |s.loops| && LoopOk(s.loops[w]) && !s.loops[w].done
    requires |Refill(s.loops[w]).batch| == |Refill(s.loops[w]).resch|
  {
    var l := s.loops[w];
    var t := Select(c, Refill(l), e);
    var b := NewBatch(l, t);
    s.(loops := s.loops[w := t], answers := s.answers + Answers(b, ok),
       held := if ok then s.held + [b] else s.held, dropped := s.dropped + Lost(c, l, e))
  }

  lemma {:induction false} InsideUpdate(loops: seq<Loop>, w: nat, t: Loop)
    requires AllOk(loops) && LoopOk(t) && w < |loops|
    ensures AllOk(loops[w := t])
    ensures Inside(loops[w := t]) + multiset(Rest(loops[w])) == Inside(loops) + multiset(Rest(t))
    decreases |loops|
  {
    hide Rest;
    var n := |loops| - 1;
    if w == n {
      assert loops[w := t][..n] == loops[..n];
    } else {
      InsideUpdate(loops[..n], w, t);
      assert loops[w := t][..n] == loops[..n][w := t];
      AddLast(Inside(loops[..n][w := t]), multiset(Rest(loops[w])), Inside(loops[..n]), multiset(Rest(t)),
              multiset(Rest(loops[n])));
    }
  }

  lemma AddLast(a: multiset<Queued>, b: multiset<Queued>, c: multiset<Queued>, d: multiset<Queued>, x: multiset<Queued>)
    requires a + b == c + d
    ensures a + x + b == c + x + d
  {
    assert a + x + b == a + b + x;
    assert c + x + d == c + d + x;
  }

  lemma AnswersAre(batch: seq<Queued>, ok: bool)
    ensures Answered(Answers(batch, ok)) == batch
  {
  }

  /** Except for the event's own message, a pass keeps the balance. */
  lemma FeedBalanced(c: Config, s: World, w: nat, e: Event, ok: bool, s0: World)
    requires Balanced(s0) && w < |s.loops| && !s.loops[w].done
    requires s == s0.(waiting := s.waiting)
    requires multiset(s.waiting) + multiset(if e.Arrive? then [e.q] else []) == multiset(s0.waiting)
    ensures |Refill(s.loops[w]).batch| == |Refill(s.loops[w]).resch|
    ensures Balanced(Feed(c, s, w, e, ok))
  {
    hide Select, Refill, Flat, Acked, Rest, Inside, Answers, NewBatch;
    var l := s.loops[w];
    PassKeeps(c, l, e);
    var t := Select(c, Refill(l), e);
    var b := NewBatch(l, t);
    InsideUpdate(s.loops, w, t);
    AnswersAre(b, ok);
    FeedAnswers(s, b, ok);
    var q := multiset(if e.Arrive? then [e.q] else []);
    assert multiset(Took(c, l, e)) + multiset(Lost(c, l, e)) == q;
    assert multiset(b) + multiset(Rest(t)) == multiset(Rest(l)) + multiset(Took(c, l, e)) by {
      assert multiset(b + Rest(t)) == multiset(Rest(l) + Took(c, l, e));
    }
    assert multiset(s.answers + Answers(b, ok)) == multiset(s.answers) + multiset(Answers(b, ok));
    Sums(multiset(s0.waiting), multiset(s.waiting), q, Inside(s.loops), Inside(s.loops[w := t]), multiset(Rest(l)),
         multiset(Rest(t)), multiset(b), multiset(Took(c, l, e)), multiset(Lost(c, l, e)));
  }

  lemma Sums(w0: multiset<Queued>, w: multiset<Queued>, q: multiset<Queued>, i0: multiset<Queued>, i: multiset<Queued>,
             r0: multiset<Queued>, r: multiset<Queued>, b: multiset<Queued>, took: multiset<Queued>,
             lost: multiset<Queued>)
    requires w + q == w0 && i + r0 == i0 + r && b + r == r0 + took && took + lost == q
    ensures w0 + i0 == w + i + b + lost
  {
    forall x: Queued
      ensures (w0 + i0)[x] == (w + i + b + lost)[x]
    {
      assert (w + q)[x] == w0[x] && (i + r0)[x] == (i0 + r)[x] && (b + r)[x] == (r0 + took)[x]
             && (took + lost)[x] == q[x];
    }
  }

  lemma FeedAnswers(s: World, b: seq<Queued>, ok: bool)
    requires multiset(Acked(s.answers)) == multiset(Flat(s.held))
    requires forall i :: 0 <= i < |s.answers| ==> s.answers[i].reply in {Ack, Rejected(s.answers[i].q.msg)}
    ensures var a := s.answers + Answers(b, ok);
            && Answered(a) == Answered(s.answers) + b
            && multiset(Acked(a)) == multiset(Flat(if ok then s.held + [b] else s.held))
            && forall i :: 0 <= i < |a| ==> a[i].reply in {Ack, Rejected(a[i].q.msg)}
  {
    hide Acked, Flat;
    AckedAppend(s.answers, Answers(b, ok));
    AckedAnswers(b, ok);
    FlatAppend(s.held, b);
  }

  // ---------------------------------------------------------------------
  // The objects
  // ---------------------------------------------------------------------

  /** The messages that came with channel `ch`, in order. */
  function Mine(qs: seq<Queued>, ch: nat): seq<Message> {
    if qs == [] then []
    else Mine(qs[..|qs| - 1], ch) + if qs[|qs| - 1].res == Channel(ch) then [qs[|qs| - 1].msg] else []
  }

  /** Logs only grow. */
  ghost predicate Later(s: World, t: World) {
    s.queued <= t.queued && s.answers <= t.answers && s.held <= t.held && s.dropped <= t.dropped
  }

  ghost predicate Separate(writers: seq<Batcher>) {
    forall i, j :: 0 <= i < j < |writers| ==> writers[i] != writers[j]
  }

  /** A reply channel: its capacity, the messages sent with it and the replies read from it. */
  datatype Chan = Chan(cap: nat, sends: nat, taken: nat)

  ghost predicate ChanOk(s: World, ch: nat, c: Chan) {
    c.sends == |Mine(s.queued, ch)| && c.taken <= |On(s.answers, ch)| && c.sends - c.taken <= c.cap
  }

  /** No more is sent with a channel, and not yet read, than it has room for. */
  ghost predicate Metered(s: World, chans: seq<Chan>) {
    && (forall k :: 0 <= k < |chans| ==> ChanOk(s, k, chans[k]))
    && (forall i :: 0 <= i < |s.queued| ==> s.queued[i].res.Channel? && s.queued[i].res.id < |chans|)
  }

  /** A channel never has more replies to read than it has room for, so that no writer blocks on it. */
  lemma NeverBlocks(s: World, chans: seq<Chan>, ch: nat)
    requires Balanced(s) && Metered(s, chans) && ch < |chans|
    ensures |On(s.answers, ch)| - chans[ch].taken <= chans[ch].cap
  {
    hide Mine, On, Balanced;
    assert ChanOk(s, ch, chans[ch]);
    ChannelBalance(s, ch);
    OnMine(s.answers, ch);
  }

  /** No channel has more replies to read than it has room for. */
  ghost predicate Unblocked(s: World, chans: seq<Chan>) {
    forall k :: 0 <= k < |chans| ==> |On(s.answers, k)| - chans[k].taken <= chans[k].cap
  }

  lemma AllUnblocked(s: World, chans: seq<Chan>)
    requires Balanced(s) && Metered(s, chans)
    ensures Unblocked(s, chans)
  {
    hide Balanced, Metered, On;
    forall k | 0 <= k < |chans|
      ensures |On(s.answers, k)| - chans[k].taken <= chans[k].cap
    {
      NeverBlocks(s, chans, k);
    }
  }

  lemma MeterAt(s: World, chans: seq<Chan>, ch: nat)
    requires Metered(s, chans) && ch < |chans|
    ensures ChanOk(s, ch, chans[ch])
  {
  }

  lemma MeteredLater(s: World, t: World, chans: seq<Chan>)
    requires Metered(s, chans) && s.queued == t.queued && s.answers <= t.answers
    ensures Metered(t, chans)
  {
    hide Mine, On;
    forall k | 0 <= k < |chans|
      ensures ChanOk(t, k, chans[k])
    {
      assert ChanOk(s, k, chans[k]);
      OnGrows(s.answers, t.answers, k);
    }
  }

  lemma MeteredSend(s: World, t: World, chans: seq<Chan>, ch: nat, m: Message)
    requires Metered(s, chans) && ch < |chans| && chans[ch].sends - chans[ch].taken < chans[ch].cap
    requires t.queued == s.queued + [Queued(m, Channel(ch))] && t.answers == s.answers
    ensures Metered(t, chans[ch := chans[ch].(sends := chans[ch].sends + 1)])
  {
    hide Mine, On;
    var after := chans[ch := chans[ch].(sends := chans[ch].sends + 1)];
    forall k | 0 <= k < |after|
      ensures ChanOk(t, k, after[k])
    {
      assert ChanOk(s, k, chans[k]);
      OtherMine(s.queued, Queued(m, Channel(ch)), k);
    }
  }

  lemma MeteredRead(s: World, chans: seq<Chan>, ch: nat)
    requires Metered(s, chans) && ch < |chans| && chans[ch].taken < |On(s.answers, ch)|
    ensures Metered(s, chans[ch := chans[ch].(taken := chans[ch].taken + 1)])
  {
    hide Mine, On;
    var after := chans[ch := chans[ch].(taken := chans[ch].taken + 1)];
    forall k | 0 <= k < |after|
      ensures ChanOk(s, k, after[k])
    {
      assert ChanOk(s, k, chans[k]);
    }
  }

  lemma MeteredNew(s: World, chans: seq<Chan>, cap: nat)
    requires Metered(s, chans)
    ensures Metered(s, chans + [Chan(cap, 0, 0)]) && Mine(s.queued, |chans|) == []
  {
    hide Mine, On;
    NoneMine(s.queued, |chans|);
    var after := chans + [Chan(cap, 0, 0)];
    forall k | 0 <= k < |after|
      ensures ChanOk(s, k, after[k])
    {
      if k < |chans| {
        assert ChanOk(s, k, chans[k]);
      }
    }
  }

  /**
   A router over a pool of partition writers: one that is not open yet gets no
   messages, one that is closed is done.
   */
  class Pipeline {
    const config: Config
    const broker: Broker
    const writers: seq<Batcher>
    var waiting: seq<Queued>
    var answers: seq<Answer>
    var chans: seq<Chan>
    ghost const before: seq<seq<Message>> // what the broker held at the start
    ghost var queued: seq<Queued>
    ghost var held: seq<seq<Queued>>
    ghost var dropped: seq<Queued>

    ghost function Loops(): seq<Loop>
      reads writers
    {
      seq(|writers|, i requires 0 <= i < |writers| reads writers => writers[i].View())
    }

    ghost function Now(): World
      reads this, writers
    {
      World(queued, waiting, Loops(), answers, held, dropped)
    }

    /** The batches counted as held are those that the broker came to hold. */
    ghost predicate Valid()
      reads this, writers, broker
    {
      && Separate(writers)
      && (forall i :: 0 <= i < |writers| ==> writers[i].config == config && writers[i].broker == broker)
      && Balanced(Now())
      && broker.holds == before + Contents(held)
      && Metered(Now(), chans)
    }

    constructor (config: Config, broker: Broker, writers: seq<Batcher>)
      requires Separate(writers)
      requires forall i :: 0 <= i < |writers| ==>
                 writers[i].config == config && writers[i].broker == broker && writers[i].View() == START
      ensures Valid() && this.config == config && this.broker == broker && this.writers == writers
    {
      this.config, this.broker, this.writers := config, broker, writers;
      waiting, answers, chans, queued, held, dropped := [], [], [], [], [], [];
      before := broker.holds;
      new;
      NothingInside(Loops());
    }

    /** make(chan error, n). */
    method NewChannel(n: nat) returns (ch: nat)
      requires Valid()
      modifies this`chans
      ensures Valid() && Balanced(Now()) && Now() == old(Now()) && Mine(queued, ch) == []
      ensures ch == |old(chans)| && chans == old(chans) + [Chan(n, 0, 0)]
      ensures Later(old(Now()), Now())
    {
      hide Balanced, Metered, Mine;
      ch := |chans|;
      MeteredNew(Now(), chans, n);
      chans := chans + [Chan(n, 0, 0)];
    }

    /** A message goes to the router with a channel that has room for its reply. */
    method Enqueue(m: Message, ch: nat)
      requires Valid() && ch < |chans| && chans[ch].sends - chans[ch].taken < chans[ch].cap
      modifies this`waiting, this`queued, this`chans
      ensures Valid() && Later(old(Now()), Now()) && queued == old(queued) + [Queued(m, Channel(ch))]
      ensures chans == old(chans)[ch := old(chans)[ch].(sends := old(chans)[ch].sends + 1)]
    {
      hide Balanced, Metered;
      var q := Queued(m, Channel(ch));
      ghost var s := Now();
      EnqueueBalanced(s, q);
      waiting := waiting + [q];
      queued := queued + [q];
      MeteredSend(s, Now(), chans, ch, m);
      chans := chans[ch := chans[ch].(sends := chans[ch].sends + 1)];
    }

    /** The next reply is read from a channel that has one. */
    method Take(ch: nat) returns (a: Answer)
      requires Valid() && ch < |chans| && chans[ch].taken < |On(answers, ch)|
      modifies this`chans
      ensures Valid() && Balanced(Now()) && Now() == old(Now()) && a == On(answers, ch)[old(chans)[ch].taken]
      ensures chans == old(chans)[ch := old(chans)[ch].(taken := old(chans)[ch].taken + 1)]
    {
      hide Balanced, Metered, On;
      a := On(answers, ch)[chans[ch].taken];
      MeteredRead(Now(), chans, ch);
      chans := chans[ch := chans[ch].(taken := chans[ch].taken + 1)];
    }

    /** A pass of writer `w` over an event; a message that arrives has been taken from those waiting. */
    method Pass(w: nat, e: Event, ghost s0: World)
      requires w < |writers| && !writers[w].done
      requires Balanced(s0) && Now() == s0.(waiting := waiting) && ValidBut()
      requires multiset(waiting) + multiset(if e.Arrive? then [e.q] else []) == multiset(s0.waiting)
      modifies this`answers, this`held, this`dropped, writers, broker
      ensures Valid() && Later(s0, Now())
      ensures Unblocked(Now(), chans)
    {
      hide Balanced, Select, Refill, Answers, Metered, On;
      ghost var was, l := Now(), writers[w].View();
      FeedReady(s0, w);
      FeedBalanced(config, was, w, e, false, s0);
      FeedBalanced(config, was, w, e, true, s0);
      var ok, out := writers[w].Handle(e);
      answers := answers + out;
      ghost var b := NewBatch(l, writers[w].View());
      held := if ok then held + [b] else held;
      dropped := dropped + Lost(config, l, e);
      ContentsAppend(old(held), b);
      assert Loops() == was.loops[w := writers[w].View()];
      assert Now() == Feed(config, was, w, e, ok);
      MeteredLater(was, Now(), chans);
      AllUnblocked(Now(), chans);
    }

    /** The router passes a waiting message on to an open writer, or back to its caller when there is none. */
    method Route(i: nat)
      requires Valid() && i < |waiting|
      modifies this`waiting, this`answers, this`held, this`dropped, writers, broker
      ensures Valid() && Later(old(Now()), Now()) && queued == old(queued)
    {
      hide Balanced, Metered;
      var q := waiting[i];
      ghost var s0 := Now();
      TakeOne(waiting, i);
      waiting := waiting[..i] + waiting[i + 1..];
      MeteredLater(s0, Now(), chans);
      var w: nat :| true;
      if w < |writers| && !writers[w].done {
        Pass(w, Arrive(q), s0);
      } else {
        RefuseBalanced(s0, Now(), q);
        answers := answers + [Answer(q, Rejected(q.msg))];
        MeteredLater(s0, Now(), chans);
      }
    }

    /** Anything that can happen next: a message is routed, a timer fires, a writer is closed. */
    method Move()
      requires Valid()
      modifies this`waiting, this`answers, this`held, this`dropped, writers, broker
      ensures Valid() && Later(old(Now()), Now()) && queued == old(queued)
    {
      hide Balanced;
      var i: nat :| true;
      var w: nat :| true;
      var e := Tick;
      if * {
        e := Closed;
      }
      if i < |waiting| {
        Route(i);
      } else if w < |writers| && !writers[w].done {
        Pass(w, e, Now());
      }
    }

    /** Whatever happens while the caller that owns `ch` does something else. */
    method Meanwhile(ch: nat)
      requires Valid() && ch < |chans|
      modifies this`waiting, this`answers, this`queued, this`held, this`dropped, this`chans, writers, broker
      ensures Valid() && Later(old(Now()), Now()) && Mine(queued, ch) == old(Mine(queued, ch))
      ensures ch < |chans| && chans[ch] == old(chans[ch])
    {
      hide Balanced, Mine, On, Metered;
      var n: nat :| true;
      for k := 0 to n
        invariant Valid() && Later(old(Now()), Now()) && Mine(queued, ch) == old(Mine(queued, ch))
        invariant ch < |chans| && chans[ch] == old(chans[ch])
      {
        var id: nat :| true;
        var taking: bool := *;
        if id >= |chans| {
          var _ := NewChannel(id);
        } else if taking && id != ch && chans[id].taken < |On(answers, id)| {
          var _ := Take(id);
        } else if id != ch && chans[id].sends - chans[id].taken < chans[id].cap {
          var m: Message := *;
          OtherMine(queued, Queued(m, Channel(id)), ch);
          Enqueue(m, id);
        } else {
          Move();
        }
      }
    }

    /** All of Valid that does not depend on what waits. */
    ghost predicate ValidBut()
      reads this, writers, broker
    {
      && Separate(writers)
      && (forall i :: 0 <= i < |writers| ==> writers[i].config == config && writers[i].broker == broker)
      && broker.holds == before + Contents(held)
      && Metered(Now(), chans)
    }
  }

  lemma EnqueueBalanced(s: World, q: Queued)
    requires Balanced(s)
    ensures Balanced(s.(waiting := s.waiting + [q], queued := s.queued + [q]))
  {
    hide Inside, Flat, Acked;
  }

  lemma TakeOne(s: seq<Queued>, i: nat)
    requires i < |s|
    ensures multiset(s[..i] + s[i + 1..]) + multiset([s[i]]) == multiset(s)
  {
    assert s == s[..i] + [s[i]] + s[i + 1..];
  }

  lemma RefuseBalanced(s0: World, s: World, q: Queued)
    requires Balanced(s0) && s == s0.(waiting := s.waiting)
             && multiset(s.waiting) + multiset([q]) == multiset(s0.waiting)
    ensures Balanced(s.(answers := s.answers + [Answer(q, Rejected(q.msg))]))
  {
    hide Inside, Flat;
    var a := [Answer(q, Rejected(q.msg))];
    AckedAppend(s.answers, a);
    assert Acked(a) == [];
    assert Answered(s.answers + a) == Answered(s.answers) + [q];
  }

  lemma OtherMine(qs: seq<Queued>, q: Queued, ch: nat)
    ensures Mine(qs + [q], ch) == if q.res == Channel(ch) then Mine(qs, ch) + [q.msg] else Mine(qs, ch)
  {
    assert (qs + [q])[..|qs|] == qs;
  }

  lemma FeedReady(s: World, w: nat)
    requires Balanced(s) && w < |s.loops|
    ensures LoopOk(s.loops[w]) && |s.loops[w].batch| == |s.loops[w].resch|
  {
  }

  lemma {:induction false} NothingInside(loops: seq<Loop>)
    requires forall i :: 0 <= i < |loops| ==> loops[i] == START
    ensures AllOk(loops) && Inside(loops) == multiset{}
    decreases |loops|
  {
    assert Rest(START) == [];
    if loops != [] {
      NothingInside(loops[..|loops| - 1]);
    }
  }

  lemma {:induction false} NoneMine(qs: seq<Queued>, ch: nat)
    requires forall i :: 0 <= i < |qs| ==> qs[i].res != Channel(ch)
    ensures Mine(qs, ch) == []
    decreases |qs|
  {
    if qs != [] {
      NoneMine(qs[..|qs| - 1], ch);
    }
  }

  // ---------------------------------------------------------------------
  // What arrives on one channel
  // ---------------------------------------------------------------------

  /** When nothing waits and every writer has ended, a message was answered once or dropped, never both. */
  lemma {:induction false} QuietAnswersAll(s: World)
    requires Balanced(s) && s.waiting == [] && forall i :: 0 <= i < |s.loops| ==> s.loops[i].done
    ensures multiset(s.queued) == multiset(Answered(s.answers)) + multiset(s.dropped)
  {
    NothingLeft(s.loops);
  }

  lemma {:induction false} NothingLeft(loops: seq<Loop>)
    requires AllOk(loops) && forall i :: 0 <= i < |loops| ==> loops[i].done
    ensures Inside(loops) == multiset{}
    decreases |loops|
  {
    hide Rest;
    if loops != [] {
      assert LoopOk(loops[|loops| - 1]);
      NothingLeft(loops[..|loops| - 1]);
    }
  }

  lemma {:induction false} MineCount(qs: seq<Queued>, ch: nat, m: Message)
    ensures multiset(Mine(qs, ch))[m] == multiset(qs)[Queued(m, Channel(ch))]
    decreases |qs|
  {
    if qs != [] {
      var init, last := qs[..|qs| - 1], qs[|qs| - 1];
      MineCount(init, ch, m);
      hide Mine;
      MineLast(qs, ch);
      assert multiset(qs) == multiset(init) + multiset{last} by {
        assert qs == init + [last];
      }
    }
  }

  lemma MineLast(qs: seq<Queued>, ch: nat)
    requires qs != []
    ensures var last := qs[|qs| - 1];
            Mine(qs, ch) == if last.res == Channel(ch) then Mine(qs[..|qs| - 1], ch) + [last.msg]
                            else Mine(qs[..|qs| - 1], ch)
  {
  }

  lemma MineSubset(a: seq<Queued>, b: seq<Queued>, ch: nat)
    requires multiset(a) <= multiset(b)
    ensures multiset(Mine(a, ch)) <= multiset(Mine(b, ch))
  {
    hide Mine;
    forall m: Message
      ensures multiset(Mine(a, ch))[m] <= multiset(Mine(b, ch))[m]
    {
      MineCount(a, ch, m);
      MineCount(b, ch, m);
    }
  }

  lemma {:induction false} MineConcat(a: seq<Queued>, b: seq<Queued>, ch: nat)
    ensures Mine(a + b, ch) == Mine(a, ch) + Mine(b, ch)
    decreases |b|
  {
    if b == [] {
      assert a + b == a;
    } else {
      var init := b[..|b| - 1];
      assert (a + b)[..|a + b| - 1] == a + init;
      MineConcat(a, init, ch);
    }
  }

  /** On one channel there are never more answers than messages, and one fewer for each message dropped. */
  lemma ChannelBalance(s: World, ch: nat)
    requires Balanced(s)
    ensures multiset(Mine(Answered(s.answers), ch)) + multiset(Mine(s.dropped, ch)) <= multiset(Mine(s.queued, ch))
    ensures |Mine(Answered(s.answers), ch)| + |Mine(s.dropped, ch)| <= |Mine(s.queued, ch)|
  {
    hide Mine, Inside, Flat, Acked;
    var both := Answered(s.answers) + s.dropped;
    assert multiset(both) <= multiset(s.queued);
    MineSubset(both, s.queued, ch);
    MineConcat(Answered(s.answers), s.dropped, ch);
    SmallerMultiset(multiset(Mine(both, ch)), multiset(Mine(s.queued, ch)));
  }

  lemma SmallerMultiset(a: multiset<Message>, b: multiset<Message>)
    requires a <= b
    ensures |a| <= |b| && (|a| == |b| ==> a == b)
  {
    assert b == a + (b - a);
  }

  /** A channel that has as many answers as messages has an answer to each, and none of its messages was dropped. */
  lemma AllAnswered(s: World, ch: nat)
    requires Balanced(s) && |Mine(Answered(s.answers), ch)| == |Mine(s.queued, ch)|
    ensures multiset(Mine(Answered(s.answers), ch)) == multiset(Mine(s.queued, ch)) && Mine(s.dropped, ch) == []
  {
    hide Mine, Balanced;
    ChannelBalance(s, ch);
    SmallerMultiset(multiset(Mine(Answered(s.answers), ch)), multiset(Mine(s.queued, ch)));
  }

  /** What was acknowledged on a channel is what of its messages the brokers hold. */
  lemma AckedIsHeld(s: World, ch: nat)
    requires Balanced(s)
    ensures multiset(Mine(Acked(s.answers), ch)) == multiset(Mine(Flat(s.held), ch))
  {
    hide Mine, Inside;
    MineSubset(Acked(s.answers), Flat(s.held), ch);
    MineSubset(Flat(s.held), Acked(s.answers), ch);
  }

  function On(answers: seq<Answer>, ch: nat): seq<Answer> {
    if answers == [] then []
    else On(answers[..|answers| - 1], ch)
         + if answers[|answers| - 1].q.res == Channel(ch) then [answers[|answers| - 1]] else []
  }

  /** The messages of some answers, of the acknowledged and of the rejected ones among them. */
  function Of(answers: seq<Answer>): (r: seq<Message>)
    ensures |r| == |answers|
  {
    seq(|answers|, i requires 0 <= i < |answers| => answers[i].q.msg)
  }

  function Failures(answers: seq<Answer>): seq<Message> {
    if answers == [] then []
    else Failures(answers[..|answers| - 1])
         + if answers[|answers| - 1].reply.Rejected? then [answers[|answers| - 1].reply.msg] else []
  }

  ghost predicate Consistent(answers: seq<Answer>) {
    forall i :: 0 <= i < |answers| ==> answers[i].reply in {Ack, Rejected(answers[i].q.msg)}
  }

  lemma AppendOne(a: seq<Answer>, x: Answer, ch: nat)
    ensures On(a + [x], ch) == if x.q.res == Channel(ch) then On(a, ch) + [x] else On(a, ch)
    ensures Acked(a + [x]) == if x.reply.Ack? then Acked(a) + [x.q] else Acked(a)
    ensures Failures(a + [x]) == if x.reply.Rejected? then Failures(a) + [x.reply.msg] else Failures(a)
    ensures Answered(a + [x]) == Answered(a) + [x.q]
    ensures Of(a + [x]) == Of(a) + [x.q.msg]
  {
    assert (a + [x])[..|a|] == a;
  }

  lemma MessagesAppend(a: seq<Queued>, q: Queued)
    ensures Messages(a + [q]) == Messages(a) + [q.msg]
  {
  }

  lemma {:induction false} OnMine(answers: seq<Answer>, ch: nat)
    ensures Of(On(answers, ch)) == Mine(Answered(answers), ch)
    ensures Messages(Acked(On(answers, ch))) == Mine(Acked(answers), ch)
    decreases |answers|
  {
    if answers != [] {
      hide On, Acked, Answered, Mine, Of, Messages;
      var init, last := answers[..|answers| - 1], answers[|answers| - 1];
      OnMine(init, ch);
      assert answers == init + [last];
      AppendOne(init, last, ch);
      AppendOne(On(init, ch), last, ch);
      OtherMine(Answered(init), last.q, ch);
      OtherMine(Acked(init), last.q, ch);
      MessagesAppend(Acked(On(init, ch)), last.q);
    }
  }

  lemma {:induction false} OnConsistent(answers: seq<Answer>, ch: nat)
    requires Consistent(answers)
    ensures Consistent(On(answers, ch))
    decreases |answers|
  {
    if answers != [] {
      OnConsistent(answers[..|answers| - 1], ch);
    }
  }

  lemma {:induction false} OnAppend(a: seq<Answer>, b: seq<Answer>, ch: nat)
    ensures On(a + b, ch) == On(a, ch) + On(b, ch)
    decreases |b|
  {
    if b == [] {
      assert a + b == a;
    } else {
      var init := b[..|b| - 1];
      assert (a + b)[..|a + b| - 1] == a + init;
      OnAppend(a, init, ch);
    }
  }

  lemma OnGrows(a: seq<Answer>, b: seq<Answer>, ch: nat)
    requires a <= b
    ensures On(a, ch) <= On(b, ch)
  {
    hide On;
    assert b == a + b[|a|..];
    OnAppend(a, b[|a|..], ch);
  }

  /** Every message answered was acknowledged or comes back. */
  lemma {:induction false} AckedOrFailed(answers: seq<Answer>)
    requires Consistent(answers)
    ensures multiset(Of(answers)) == multiset(Messages(Acked(answers))) + multiset(Failures(answers))
    decreases |answers|
  {
    if answers != [] {
      hide Acked, Failures, Of, Messages;
      var init, last := answers[..|answers| - 1], answers[|answers| - 1];
      AckedOrFailed(init);
      assert answers == init + [last];
      AppendOne(init, last, 0);
      MessagesAppend(Acked(init), last.q);
    }
  }
}
