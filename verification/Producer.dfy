/**
 WriteMessages (writer.go): messages are handed to the router and, attempt after
 attempt, those that failed are handed over again.  Between any two steps of the
 call the pipeline, which other callers share, does whatever it likes.
 */
module Producer {
  import opened Collections
  import opened Delivery
  import opened PartitionWriter
  import opened Sender

  datatype WriterConfig = WriterConfig(maxAttempts: int, batchBytes: int, async: bool)

  /** What ends the pause between two attempts. */
  datatype Wake = Timer | Done | Shut

  /**
   What the call meets by attempt: whether the writer is closed, whether the
   context ends before the i-th message is handed over, or before the i-th
   reply is there, and what ends the pause.
   */
  datatype Signals = Signals(closed: nat -> bool, sending: nat -> nat -> bool, receiving: nat -> nat -> bool,
                             wake: nat -> Wake)

  /** How a call ends; `Waiting` is a call that has not returned. */
  datatype WriteError = NoError | WriterFailed | ContextDone | ClosedPipe | Waiting

  /** The messages WriteMessages hands to the router. */
  function Sendable(msgs: seq<Message>, batchBytes: int): seq<Message> {
    if msgs == [] then []
    else Sendable(msgs[..|msgs| - 1], batchBytes)
         + if msgs[|msgs| - 1].Size() > batchBytes then [] else [msgs[|msgs| - 1]]
  }

  lemma {:induction false} SendableAll(msgs: seq<Message>, batchBytes: int)
    requires forall i :: 0 <= i < |msgs| ==> msgs[i].Size() <= batchBytes
    ensures Sendable(msgs, batchBytes) == msgs
  {
    if msgs != [] {
      SendableAll(msgs[..|msgs| - 1], batchBytes);
    }
  }

  lemma {:induction false} SendableSmall(msgs: seq<Message>, batchBytes: int)
    ensures |Sendable(msgs, batchBytes)| <= |msgs|
    ensures forall i :: 0 <= i < |Sendable(msgs, batchBytes)| ==> Sendable(msgs, batchBytes)[i].Size() <= batchBytes
  {
    if msgs != [] {
      SendableSmall(msgs[..|msgs| - 1], batchBytes);
    }
  }

  /** Each attempt after the first sends exactly what failed in the one before. */
  ghost predicate Chained(sent: seq<multiset<Message>>, failed: seq<multiset<Message>>) {
    |sent| == |failed| && forall i :: 0 < i < |sent| ==> sent[i] == failed[i - 1]
  }

  /** The context ends before a message that is not too large is handed over. */
  ghost predicate EndsSending(ends: nat -> bool, msgs: seq<Message>, batchBytes: int) {
    exists i :: 0 <= i < |msgs| && msgs[i].Size() <= batchBytes && ends(i)
  }

  /** The sending half of one attempt: everything that is not too large, unless the context ends. */
  method SendAll(p: Pipeline, ch: nat, batchBytes: int, msgs: seq<Message>, ends: nat -> bool)
    returns (skipped: nat, cancelled: bool)
    requires p.Valid() && ch < |p.chans| && p.chans[ch].sends - p.chans[ch].taken + |msgs| <= p.chans[ch].cap
    modifies p`waiting, p`answers, p`queued, p`held, p`dropped, p`chans, p.writers, p.broker
    ensures p.Valid() && Later(old(p.Now()), p.Now())
    ensures ch < |p.chans| && p.chans[ch] == old(p.chans[ch]).(sends := p.chans[ch].sends)
    ensures !cancelled ==> Mine(p.queued, ch) == old(Mine(p.queued, ch)) + Sendable(msgs, batchBytes)
    ensures !cancelled ==> |msgs| - skipped == |Sendable(msgs, batchBytes)|
    ensures cancelled <==> EndsSending(ends, msgs, batchBytes)
  {
    hide Mine, Sendable, Balanced, Metered;
    skipped, cancelled := 0, false;
    SendableNone(batchBytes);
    assert Mine(p.queued, ch) + [] == Mine(p.queued, ch);
    for i := 0 to |msgs|
      invariant p.Valid() && Later(old(p.Now()), p.Now())
      invariant Mine(p.queued, ch) == old(Mine(p.queued, ch)) + Sendable(msgs[..i], batchBytes)
      invariant i - skipped == |Sendable(msgs[..i], batchBytes)| && !cancelled
      invariant forall k :: 0 <= k < i && msgs[k].Size() <= batchBytes ==> !ends(k)
      invariant ch < |p.chans| && p.chans[ch] == old(p.chans[ch]).(sends := old(p.chans[ch].sends) + i - skipped)
    {
      SendableStep(msgs, i, batchBytes);
      p.Meanwhile(ch);
      if msgs[i].Size() > batchBytes {
        skipped := skipped + 1;
        continue;
      }
      cancelled := ends(i);
      if cancelled {
        return;
      }
      OtherMine(p.queued, Queued(msgs[i], Channel(ch)), ch);
      p.Enqueue(msgs[i], ch);
    }
    assert msgs[..|msgs|] == msgs;
  }

  lemma SendableNone(batchBytes: int)
    ensures Sendable([], batchBytes) == []
  {
  }

  lemma SendableStep(msgs: seq<Message>, i: nat, batchBytes: int)
    requires i < |msgs|
    ensures msgs[..0] == []
    ensures Sendable(msgs[..i + 1], batchBytes)
         == if msgs[i].Size() > batchBytes then Sendable(msgs[..i], batchBytes)
             else Sendable(msgs[..i], batchBytes) + [msgs[i]]
  {
    assert msgs[..i + 1][..i] == msgs[..i];
  }

  datatype Status = WriterClosed | Cancelled | Enqueued | Blocked | Complete

  /** The next reply on the channel, if there is one by then. */
  method Await(p: Pipeline, ch: nat) returns (reply: Option<Answer>)
    requires p.Valid() && ch < |p.chans|
    modifies p`waiting, p`answers, p`queued, p`held, p`dropped, p`chans, p.writers, p.broker
    ensures p.Valid() && Later(old(p.Now()), p.Now()) && Mine(p.queued, ch) == old(Mine(p.queued, ch))
    ensures On(old(p.answers), ch) <= On(p.answers, ch)
    ensures ch < |p.chans| && old(p.chans[ch]).taken <= |On(p.answers, ch)|
    ensures reply.None? <==> old(p.chans[ch]).taken == |On(p.answers, ch)|
    ensures reply.None? ==> p.chans[ch] == old(p.chans[ch])
    ensures reply.Some? ==>
              && reply.value == On(p.answers, ch)[old(p.chans[ch]).taken]
              && p.chans[ch] == old(p.chans[ch]).(taken := old(p.chans[ch]).taken + 1)
  {
    hide Mine, On, Balanced, Metered, Later, Pipeline.Valid;
    p.Meanwhile(ch);
    AnswersGrow(old(p.Now()), p.Now(), ch);
    ValidMetered(p);
    MeterAt(p.Now(), p.chans, ch);
    if p.chans[ch].taken == |On(p.answers, ch)| {
      return None;
    }
    var a := p.Take(ch);
    reply := Some(a);
  }

  /**
   The receiving half: one reply per message sent, the rejected ones collected
   for the next attempt.
   */
  method ReceiveAll(p: Pipeline, ch: nat, n: nat, ends: nat -> bool) returns (retry: seq<Message>, status: Status)
    requires p.Valid() && ch < |p.chans| && p.chans[ch].sends == p.chans[ch].taken + n
    modifies p`waiting, p`answers, p`queued, p`held, p`dropped, p`chans, p.writers, p.broker
    ensures p.Valid() && Later(old(p.Now()), p.Now()) && Mine(p.queued, ch) == old(Mine(p.queued, ch))
    ensures status in {Complete, Blocked, Cancelled}
    ensures ch < |p.chans| && p.chans[ch] == old(p.chans[ch]).(taken := p.chans[ch].taken)
    ensures status == Complete ==>
              && p.chans[ch].taken == p.chans[ch].sends == |On(p.answers, ch)|
              && retry == Failures(On(p.answers, ch)[old(p.chans[ch].taken)..p.chans[ch].taken])
    ensures status == Cancelled ==> exists i :: 0 <= i < n && ends(i)
    ensures status == Complete ==> forall i :: 0 <= i < n ==> !ends(i)
    ensures status == Blocked ==> p.chans[ch].taken < p.chans[ch].sends && p.chans[ch].taken == |On(p.answers, ch)|
  {
    hide Mine, On, Failures, Balanced, Metered, Later, Pipeline.Valid;
    retry, status := [], Complete;
    ghost var from := p.chans[ch].taken;
    LaterSame(p.Now());
    ValidMetered(p);
    MeterAt(p.Now(), p.chans, ch);
    NoFailures(On(p.answers, ch), from);
    for i := 0 to n
      invariant p.Valid() && Later(old(p.Now()), p.Now()) && Mine(p.queued, ch) == old(Mine(p.queued, ch))
      invariant ch < |p.chans| && p.chans[ch] == old(p.chans[ch]).(taken := from + i)
      invariant forall k :: 0 <= k < i ==> !ends(k)
      invariant from + i <= |On(p.answers, ch)| && retry == Failures(On(p.answers, ch)[from..from + i])
    {
      if ends(i) {
        return retry, Cancelled;
      }
      ghost var before := p.Now();
      var reply := Await(p, ch);
      LaterStill(old(p.Now()), before, p.Now());
      if reply.None? {
        return retry, Blocked;
      }
      SamePart(On(before.answers, ch), On(p.answers, ch), from, from + i);
      FailuresStep(On(p.answers, ch), from, from + i);
      if reply.value.reply.Rejected? {
        retry := retry + [reply.value.reply.msg];
      }
    }
    ValidMetered(p);
    RoomFor(p.Now(), ch);
    MeterAt(p.Now(), p.chans, ch);
  }

  lemma LaterSame(s: World)
    ensures Later(s, s)
  {
  }

  lemma AnswersGrow(s: World, t: World, ch: nat)
    requires Later(s, t)
    ensures On(s.answers, ch) <= On(t.answers, ch)
  {
    hide On;
    OnGrows(s.answers, t.answers, ch);
  }

  lemma SamePart(a: seq<Answer>, b: seq<Answer>, i: nat, j: nat)
    requires a <= b && i <= j <= |a|
    ensures a[i..j] == b[i..j]
  {
  }

  lemma NoFailures(replies: seq<Answer>, from: nat)
    requires from <= |replies|
    ensures Failures(replies[from..from]) == []
  {
  }

  lemma FailuresStep(replies: seq<Answer>, from: nat, i: nat)
    requires from <= i < |replies|
    ensures Failures(replies[from..i + 1])
         == if replies[i].reply.Rejected? then Failures(replies[from..i]) + [replies[i].reply.msg]
            else Failures(replies[from..i])
  {
    assert replies[from..i + 1] == replies[from..i] + [replies[i]];
    AppendOne(replies[from..i], replies[i], 0);
  }

  /** Replies on a channel never outnumber the messages that came with it. */
  lemma RoomFor(s: World, ch: nat)
    requires Balanced(s)
    ensures |On(s.answers, ch)| + |Mine(s.dropped, ch)| <= |Mine(s.queued, ch)|
  {
    hide Mine, On, Balanced;
    ChannelBalance(s, ch);
    OnMine(s.answers, ch);
  }

  /** A call one of whose messages was dropped waits for a reply that never comes, however long the pipeline runs. */
  lemma DroppedWaits(s: World, t: World, ch: nat)
    requires Balanced(t) && Later(s, t) && Mine(s.dropped, ch) != []
    ensures |On(t.answers, ch)| < |Mine(t.queued, ch)|
  {
    hide Mine, On, Balanced;
    RoomFor(t, ch);
    assert t.dropped == s.dropped + t.dropped[|s.dropped|..];
    MineConcat(s.dropped, t.dropped[|s.dropped|..], ch);
  }

  /** The messages acknowledged on a channel so far. */
  ghost function AckedOn(s: World, ch: nat): multiset<Message> {
    multiset(Messages(Acked(On(s.answers, ch))))
  }

  /** Every reply was read: what was sent in the attempt is now acknowledged or to be retried. */
  lemma AttemptDone(s: World, t: World, ch: nat, sent: seq<Message>, retry: seq<Message>)
    requires Balanced(s) && Balanced(t) && Later(s, t)
    requires |On(s.answers, ch)| == |Mine(s.queued, ch)| && Mine(t.queued, ch) == Mine(s.queued, ch) + sent
    requires |On(t.answers, ch)| == |Mine(t.queued, ch)|
    requires retry == Failures(On(t.answers, ch)[|On(s.answers, ch)|..])
    ensures AckedOn(t, ch) + multiset(retry) == AckedOn(s, ch) + multiset(sent)
  {
    hide Mine, On, Acked, Failures, Answered, Messages, Of;
    var a, b := On(s.answers, ch), On(t.answers, ch);
    OnGrows(s.answers, t.answers, ch);
    var more := b[|a|..];
    assert b == a + more;
    Settled(s, ch);
    Settled(t, ch);
    OfConcat(a, more);
    AckedAppend(a, more);
    MessagesConcat(Acked(a), Acked(more));
    ConsistentTail(t, ch, |a|);
    AckedOrFailed(more);
    assert multiset(Mine(t.queued, ch)) == multiset(Mine(s.queued, ch)) + multiset(sent);
    assert multiset(Of(more)) == multiset(sent) by {
      Cancel(multiset(Of(a)), multiset(Of(more)), multiset(sent));
    }
  }

  lemma Cancel(a: multiset<Message>, b: multiset<Message>, c: multiset<Message>)
    requires a + b == a + c
    ensures b == c
  {
    forall m: Message
      ensures b[m] == c[m]
    {
      assert (a + b)[m] == (a + c)[m];
    }
  }

  lemma Settled(s: World, ch: nat)
    requires Balanced(s) && |On(s.answers, ch)| == |Mine(s.queued, ch)|
    ensures multiset(Of(On(s.answers, ch))) == multiset(Mine(s.queued, ch)) && Mine(s.dropped, ch) == []
  {
    hide Mine, On, Balanced;
    OnMine(s.answers, ch);
    AllAnswered(s, ch);
  }

  lemma OfConcat(a: seq<Answer>, b: seq<Answer>)
    ensures Of(a + b) == Of(a) + Of(b)
  {
  }

  lemma MessagesConcat(a: seq<Queued>, b: seq<Queued>)
    ensures Messages(a + b) == Messages(a) + Messages(b)
  {
  }

  lemma ConsistentTail(s: World, ch: nat, k: nat)
    requires Balanced(s) && k <= |On(s.answers, ch)|
    ensures Consistent(On(s.answers, ch)[k..])
  {
    hide On, Inside, Flat, Acked;
    OnConsistent(s.answers, ch);
  }

  /** Before an attempt, with `all` still to be acknowledged of `goal`: everything sent so far was answered. */
  ghost predicate Progress(s: World, ch: nat, goal: multiset<Message>, all: multiset<Message>,
                           sent: seq<multiset<Message>>, failed: seq<multiset<Message>>) {
    && |On(s.answers, ch)| == |Mine(s.queued, ch)| && AckedOn(s, ch) + all == goal
    && Chained(sent, failed)
    && (sent == [] ==> Mine(s.queued, ch) == [])
    && (sent != [] ==> sent[0] == goal && all == failed[|failed| - 1])
  }

  /** The context ends during the attempt. */
  ghost predicate Ends(signals: Signals, attempt: nat) {
    exists i: nat :: signals.sending(attempt)(i) || signals.receiving(attempt)(i)
  }

  /** One attempt at the messages `cur`. */
  method Attempt(p: Pipeline, ch: nat, c: WriterConfig, signals: Signals, attempt: nat, cur: seq<Message>,
                 ghost goal: multiset<Message>, ghost sent0: seq<multiset<Message>>,
                 ghost failed0: seq<multiset<Message>>)
    returns (status: Status, retry: seq<Message>, ghost sent: seq<multiset<Message>>,
             ghost failed: seq<multiset<Message>>)
    requires p.Valid() && ch < |p.chans| && p.chans[ch].taken == p.chans[ch].sends && |cur| <= p.chans[ch].cap
    requires Progress(p.Now(), ch, goal, multiset(Sendable(cur, c.batchBytes)), sent0, failed0)
    modifies p`waiting, p`answers, p`queued, p`held, p`dropped, p`chans, p.writers, p.broker
    ensures p.Valid() && Balanced(p.Now()) && Later(old(p.Now()), p.Now())
    ensures ch < |p.chans| && p.chans[ch].cap == old(p.chans[ch].cap)
    ensures Chained(sent, failed) && (sent != [] ==> sent[0] == goal)
    ensures status == WriterClosed <==> signals.closed(attempt)
    ensures status == Enqueued ==> c.async
    ensures status == Cancelled ==> Ends(signals, attempt)
    ensures status == Blocked ==> p.chans[ch].taken < p.chans[ch].sends && p.chans[ch].taken == |On(p.answers, ch)|
    ensures status != Complete ==> sent == sent0 && failed == failed0
    ensures status == Complete ==>
              && !c.async && |sent| == |sent0| + 1 == |failed| && failed[|sent0|] == multiset(retry)
              && p.chans[ch].taken == p.chans[ch].sends
              && |retry| <= |cur| && Sendable(retry, c.batchBytes) == retry && sent != []
              && Progress(p.Now(), ch, goal, multiset(retry), sent, failed)
  {
    hide Chained, Sendable, Mine, On, AckedOn, Failures, Balanced, Metered;
    retry, sent, failed := [], sent0, failed0;
    ghost var s := p.Now();
    ghost var toSend := Sendable(cur, c.batchBytes);
    ghost var read := p.chans[ch].taken;
    MeterAt(s, p.chans, ch);
    if signals.closed(attempt) {
      return WriterClosed, [], sent, failed;
    }
    var skipped, cancelled := SendAll(p, ch, c.batchBytes, cur, signals.sending(attempt));
    if cancelled {
      return Cancelled, [], sent, failed;
    }
    if c.async {
      return Enqueued, [], sent, failed;
    }
    OnGrows(s.answers, p.answers, ch);
    MeterAt(p.Now(), p.chans, ch);
    retry, status := ReceiveAll(p, ch, |cur| - skipped, signals.receiving(attempt));
    if status != Complete {
      return;
    }
    SliceToEnd(On(p.answers, ch), read, |cur| - skipped);
    AttemptDone(s, p.Now(), ch, toSend, retry);
    RetryIsSendable(cur, retry, c.batchBytes, AckedOn(p.Now(), ch), AckedOn(s, ch), p.Now(), s, ch);
    if sent == [] {
      FirstGoal(s, ch, goal, multiset(toSend));
    }
    ChainedAppend(sent, failed, multiset(toSend), multiset(retry));
    FailuresFew(On(p.answers, ch)[read..]);
    SendableSmall(cur, c.batchBytes);
    ChainedPairs(sent, failed);
    sent, failed := sent + [multiset(toSend)], failed + [multiset(retry)];
  }

  lemma ChainedPairs(sent: seq<multiset<Message>>, failed: seq<multiset<Message>>)
    requires Chained(sent, failed)
    ensures |sent| == |failed|
  {
  }

  lemma FirstGoal(s: World, ch: nat, goal: multiset<Message>, all: multiset<Message>)
    requires |On(s.answers, ch)| == |Mine(s.queued, ch)| && AckedOn(s, ch) + all == goal && Mine(s.queued, ch) == []
    ensures all == goal
  {
    hide On, Mine;
    assert On(s.answers, ch) == [];
    assert Acked([]) == [];
  }

  lemma SliceToEnd(s: seq<Answer>, from: nat, n: nat)
    requires |s| == from + n
    ensures s[from..from + n] == s[from..]
  {
  }

  lemma {:induction false} FailuresFew(answers: seq<Answer>)
    ensures |Failures(answers)| <= |answers|
    decreases |answers|
  {
    if answers != [] {
      FailuresFew(answers[..|answers| - 1]);
    }
  }

  lemma CancelLeft(a: multiset<Message>, r: multiset<Message>, b: multiset<Message>, s: multiset<Message>)
    requires a + r == b + s && b <= a
    ensures r <= s
  {
    forall m: Message
      ensures r[m] <= s[m]
    {
      assert (a + r)[m] == (b + s)[m];
    }
  }

  /** Acknowledgements are never taken back. */
  lemma AckedGrows(s: World, t: World, ch: nat)
    requires Later(s, t)
    ensures AckedOn(s, ch) <= AckedOn(t, ch)
  {
    hide On, Acked, Messages;
    var a, b := On(s.answers, ch), On(t.answers, ch);
    OnGrows(s.answers, t.answers, ch);
    assert b == a + b[|a|..];
    AckedAppend(a, b[|a|..]);
    MessagesConcat(Acked(a), Acked(b[|a|..]));
  }

  lemma {:induction false} RetryIsSendable(
    cur: seq<Message>, retry: seq<Message>, batchBytes: int, acked: multiset<Message>, before: multiset<Message>,
    t: World, s: World, ch: nat)
    requires Later(s, t) && acked == AckedOn(t, ch) && before == AckedOn(s, ch)
    requires acked + multiset(retry) == before + multiset(Sendable(cur, batchBytes))
    ensures Sendable(retry, batchBytes) == retry
  {
    hide Sendable, AckedOn;
    AckedGrows(s, t, ch);
    SendableSmall(cur, batchBytes);
    CancelLeft(acked, multiset(retry), before, multiset(Sendable(cur, batchBytes)));
    forall i | 0 <= i < |retry|
      ensures retry[i].Size() <= batchBytes
    {
      assert retry[i] in multiset(retry);
      assert retry[i] in Sendable(cur, batchBytes);
    }
    SendableAll(retry, batchBytes);
  }

  lemma ChainedAppend(sent: seq<multiset<Message>>, failed: seq<multiset<Message>>, all: multiset<Message>,
                      retry: multiset<Message>)
    requires Chained(sent, failed) && (sent != [] ==> all == failed[|failed| - 1])
    ensures Chained(sent + [all], failed + [retry])
  {
  }

  /** A call that had its replies: the broker holds `goal` of its messages and none was dropped. */
  ghost predicate Settles(s: World, ch: nat, goal: multiset<Message>) {
    multiset(Mine(Flat(s.held), ch)) == goal && Mine(s.dropped, ch) == []
  }

  /** The last of so many attempts left something over. */
  ghost predicate UsedUp(failed: seq<multiset<Message>>, attempts: int) {
    0 < attempts == |failed| && failed[attempts - 1] != multiset{}
  }

  /** The writer is closed before an attempt or in the pause after it. */
  ghost predicate Closes(signals: Signals, attempts: int) {
    exists k: nat :: k < attempts && (signals.closed(k) || signals.wake(k).Shut?)
  }

  /** The context ends in an attempt or in the pause after it. */
  ghost predicate Expires(signals: Signals, attempts: int) {
    exists k: nat :: k < attempts && (Ends(signals, k) || signals.wake(k).Done?)
  }

  /**
   WriteMessages.  A synchronous call that returns nil, provided it made an
   attempt at all, finds every message that is not too large in batches that the
   brokers hold, exactly as often as it was passed; every retry sent exactly
   what had failed; and a call that returns with the outcome of its messages had
   none of them dropped.
   */
  method WriteMessages(p: Pipeline, c: WriterConfig, signals: Signals, msgs: seq<Message>)
    returns (err: WriteError, ch: nat, ghost sent: seq<multiset<Message>>, ghost failed: seq<multiset<Message>>)
    requires p.Valid()
    modifies p, p.writers, p.broker
    ensures p.Valid() && Later(old(p.Now()), p.Now())
    ensures ch < |p.chans| && p.chans[ch].cap == |msgs|
    ensures Unblocked(p.Now(), p.chans)
    ensures Chained(sent, failed)
    ensures sent != [] ==> sent[0] == multiset(Sendable(msgs, c.batchBytes))
    ensures err == NoError && !c.async && (c.maxAttempts >= 1 || msgs == []) ==>
              Settles(p.Now(), ch, multiset(Sendable(msgs, c.batchBytes)))
    ensures err == WriterFailed ==> Mine(p.dropped, ch) == []
    ensures err == WriterFailed ==> UsedUp(failed, c.maxAttempts)
    ensures err == ClosedPipe ==> Closes(signals, c.maxAttempts)
    ensures err == ContextDone ==> Expires(signals, c.maxAttempts)
    ensures err == Waiting ==> p.chans[ch].taken < p.chans[ch].sends && p.chans[ch].taken == |On(p.answers, ch)|
    ensures c.maxAttempts < 1 ==> err == NoError && Mine(p.queued, ch) == [] && sent == []
  {
    hide Sendable, Chained, Progress, Mine, Settles, Balanced, Later, Pipeline.Valid, Metered, Unblocked;
    sent, failed, err := [], [], NoError;
    ch := p.NewChannel(|msgs|);
    assert Metered(p.Now(), p.chans) by {
      ValidMetered(p);
    }
    AllUnblocked(p.Now(), p.chans);
    StartChained();
    if |msgs| == 0 {
      SendableNone(c.batchBytes);
      Unused(p.Now(), ch);
      return;
    }
    var cur := msgs;
    ghost var goal := multiset(Sendable(msgs, c.batchBytes));
    StartProgress(p.Now(), ch, goal);
    var attempt := 0;
    while attempt < c.maxAttempts
      invariant p.Valid() && Unblocked(p.Now(), p.chans) && Later(old(p.Now()), p.Now())
      invariant ch < |p.chans| && p.chans[ch].cap == |msgs| >= |cur| && p.chans[ch].taken == p.chans[ch].sends
      invariant 0 <= attempt == |sent| == |failed| && err == NoError
      invariant Progress(p.Now(), ch, goal, multiset(Sendable(cur, c.batchBytes)), sent, failed)
      invariant attempt >= 1 ==> attempt < c.maxAttempts
      decreases c.maxAttempts - attempt
    {
      var status, retry;
      ghost var before := p.Now();
      status, retry, sent, failed := Attempt(p, ch, c, signals, attempt, cur, goal, sent, failed);
      LaterStill(old(p.Now()), before, p.Now());
      ValidMetered(p);
      AllUnblocked(p.Now(), p.chans);
      if status != Complete {
        err := match status
          case WriterClosed => ClosedPipe
          case Cancelled => ContextDone
          case Blocked => Waiting
          case _ => NoError;
        return;
      }
      Replied(p.Now(), ch, goal, multiset(retry), sent, failed);
      cur := retry;
      if |cur| == 0 {
        return;
      }
      err := Pause(attempt, c.maxAttempts, signals.wake(attempt));
      if err != NoError {
        return;
      }
      attempt := attempt + 1;
    }
    NotAttempted(p.Now(), ch, goal, multiset(Sendable(cur, c.batchBytes)), sent, failed);
  }

  lemma ValidMetered(p: Pipeline)
    requires p.Valid()
    ensures Metered(p.Now(), p.chans) && Balanced(p.Now())
  {
  }

  lemma LaterStill(s: World, t: World, u: World)
    requires Later(s, t) && Later(t, u)
    ensures Later(s, u)
  {
  }

  lemma StartChained()
    ensures Chained([], [])
  {
  }

  lemma StartProgress(s: World, ch: nat, goal: multiset<Message>)
    requires Balanced(s) && Mine(s.queued, ch) == []
    ensures Progress(s, ch, goal, goal, [], [])
  {
    hide Mine, On, Balanced;
    RoomFor(s, ch);
    assert On(s.answers, ch) == [];
    assert Acked([]) == [];
  }

  /** A channel nothing was sent with. */
  lemma Unused(s: World, ch: nat)
    requires Balanced(s) && Mine(s.queued, ch) == []
    ensures Settles(s, ch, multiset([]))
  {
    hide Mine, On, Balanced;
    StartProgress(s, ch, multiset([]));
    Replied(s, ch, multiset([]), multiset([]), [], []);
  }

  lemma Replied(s: World, ch: nat, goal: multiset<Message>, all: multiset<Message>,
                sent: seq<multiset<Message>>, failed: seq<multiset<Message>>)
    requires Balanced(s) && Progress(s, ch, goal, all, sent, failed)
    ensures Chained(sent, failed) && (sent != [] ==> sent[0] == goal)
    ensures Mine(s.dropped, ch) == []
    ensures all == multiset{} ==> Settles(s, ch, goal)
  {
    hide Mine, On, Acked, Flat, Balanced;
    Settled(s, ch);
    AckedIsHeld(s, ch);
    OnMine(s.answers, ch);
  }

  lemma NotAttempted(s: World, ch: nat, goal: multiset<Message>, all: multiset<Message>,
                     sent: seq<multiset<Message>>, failed: seq<multiset<Message>>)
    requires Progress(s, ch, goal, all, sent, failed) && sent == []
    ensures Mine(s.queued, ch) == [] && Chained(sent, failed)
  {
  }

  /** Between two attempts: the error is only cleared when another attempt follows. */
  method Pause(attempt: nat, maxAttempts: int, wake: Wake) returns (err: WriteError)
    ensures err == NoError <==> wake == Timer && attempt < maxAttempts - 1
    ensures err == WriterFailed <==> wake == Timer && attempt >= maxAttempts - 1
    ensures err == ContextDone <==> wake == Done
    ensures err == ClosedPipe <==> wake == Shut
  {
    err := WriterFailed;
    match wake {
      case Timer =>
        if attempt < maxAttempts - 1 {
          err := NoError;
        }
      case Done =>
        err := ContextDone;
      case Shut =>
        err := ClosedPipe;
    }
  }
}
