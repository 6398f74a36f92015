/**
 writer.write (writer.go): a batch is sent with bounded retries, and every
 message of it is answered once.  The broker can succeed or fail in any way; it
 is described by the batches it holds.
 */
module Sender {
  import opened Collections
  import opened Wire
  import MessageSet

  datatype Message = Message(key: Slice, value: Slice) {
    /** msg.message().size(): format 1, so with a timestamp. */
    function Size(): nat {
      MessageSet.Size(1, key, value)
    }
  }

  datatype Error = Error(temporary: bool, network: bool, notLeader: bool, duplicateSequence: bool)

  datatype Result = Success | Failure(err: Error)

  function NeedsReconnect(err: Error): bool {
    err.network || err.notLeader
  }

  function ShouldRetry(err: Error, maxRetries: int, attempts: nat): bool {
    attempts < maxRetries && (err.temporary || NeedsReconnect(err))
  }

  /** What arrives on a reply channel: nil, or a writerError with its message. */
  datatype Reply = Ack | Rejected(msg: Message)

  /** What a writer asked of the broker and what came of it. */
  datatype Exchange = Dialed(r: Result) | Produced(batch: seq<Message>, r: Result)

  /** A partition leader: dialing and producing can succeed or fail in any way. */
  class Broker {
    /** The batches of the produce requests answered with success or DuplicateSequenceNumber, in that order. */
    ghost var holds: seq<seq<Message>>
    ghost var history: seq<Exchange>

    method Dial() returns (r: Result)
      modifies this`history
      ensures history == old(history) + [Dialed(r)]
    {
      r := Success;
      var fails: bool := *;
      if fails {
        var e: Error := *;
        r := Failure(e);
      }
      history := history + [Dialed(r)];
    }

    method Produce(batch: seq<Message>) returns (r: Result)
      modifies this`history, this`holds
      ensures history == old(history) + [Produced(batch, r)]
      ensures holds == if Holds(r) then old(holds) + [batch] else old(holds)
    {
      r := Success;
      var fails: bool := *;
      if fails {
        var e: Error := *;
        r := Failure(e);
      }
      history := history + [Produced(batch, r)];
      if Holds(r) {
        holds := holds + [batch];
      }
    }
  }

  /** The answers that leave the batch with the broker: success, or that it has it already. */
  predicate Holds(r: Result) {
    r.Success? || r.err.duplicateSequence
  }

  // ---------------------------------------------------------------------
  // The passes of writer.write
  // ---------------------------------------------------------------------

  /** One pass: the dial it began with, if any, and the produce request, if it came to that. */
  datatype Pass = Pass(dial: Option<Result>, request: Option<Result>)

  function Exchanged(batch: seq<Message>, p: Pass): seq<Exchange> {
    (if p.dial.Some? then [Dialed(p.dial.value)] else [])
    + (if p.request.Some? then [Produced(batch, p.request.value)] else [])
  }

  function AllExchanged(batch: seq<Message>, passes: seq<Pass>): seq<Exchange> {
    if passes == [] then []
    else AllExchanged(batch, passes[..|passes| - 1]) + Exchanged(batch, passes[|passes| - 1])
  }

  /** The error of a pass; None if it left the batch with the broker. */
  function ErrorOf(p: Pass): Option<Error> {
    if p.request.Some? then if Holds(p.request.value) then None else Some(p.request.value.err)
    else if p.dial.Some? && p.dial.value.Failure? then Some(p.dial.value.err)
    else None
  }

  /** A pass dials when there is no connection, and sends the request when there is one then. */
  ghost predicate PassOk(p: Pass, connected: bool) {
    (p.dial.Some? <==> !connected) && (p.request.Some? <==> p.dial.None? || p.dial.value.Success?)
  }

  /** There is a connection after the pass, unless the request failed on the network or for want of the leader. */
  predicate Connected(p: Pass) {
    && p.request.Some?
    && (ErrorOf(p).None? || (!ErrorOf(p).value.network && !ErrorOf(p).value.notLeader))
  }

  /** A failure that another pass may mend. */
  predicate Transient(err: Error) {
    err.temporary || err.network || err.notLeader
  }

  /** The pass failed, and another one may mend it. */
  predicate Mendable(p: Pass) {
    ErrorOf(p).Some? && Transient(ErrorOf(p).value)
  }

  /** Whether there is a connection after so many passes. */
  function OpenAfter(connected: bool, passes: seq<Pass>): bool {
    if passes == [] then connected else Connected(passes[|passes| - 1])
  }

  /** Every pass finds the connection the pass before it left, and every pass but the last may be mended. */
  ghost predicate PassesOk(connected: bool, passes: seq<Pass>) {
    && (forall k :: 0 <= k < |passes| ==> PassOk(passes[k], OpenAfter(connected, passes[..k])))
    && (forall k :: 0 <= k < |passes| - 1 ==> Mendable(passes[k]))
  }

  function Max(a: int, b: int): int {
    if a > b then a else b
  }

  /** The one reply each message of a batch gets. */
  function Replies(batch: seq<Message>, ok: bool): (r: seq<Reply>)
    ensures |r| == |batch|
  {
    seq(|batch|, i requires 0 <= i < |batch| => if ok then Ack else Rejected(batch[i]))
  }

  /**
   writer.write: every pass but the last fails with an error that another pass
   may mend, and the last either leaves the batch with the broker, or fails with
   an error of the other kind, or has no retry left.  It replies once per message,
   and nil exactly for a batch the broker holds.
   */
  method Write(b: Broker, connected: bool, batch: seq<Message>, retries: int)
    returns (open: bool, ok: bool, replies: seq<Reply>, ghost passes: seq<Pass>)
    modifies b
    ensures replies == Replies(batch, ok)
    ensures b.holds == if ok then old(b.holds) + [batch] else old(b.holds)
    ensures b.history == old(b.history) + AllExchanged(batch, passes)
    ensures 1 <= |passes| <= Max(retries, 0) + 1 && PassesOk(connected, passes)
    ensures open <==> passes[|passes| - 1].request.Some?
    ensures var last := ErrorOf(passes[|passes| - 1]);
            && (ok <==> last.None?)
            && (!ok ==> !Transient(last.value) || |passes| == Max(retries, 0) + 1)
  {
    hide AllExchanged, PassesOk, OpenAfter, Replies, Exchanged;
    var attempts: nat := 0;
    open, ok, passes := connected, false, [];
    NoPasses(batch, connected);
    while true
      invariant 0 <= attempts == |passes| <= Max(retries, 0)
      invariant b.holds == old(b.holds) && !ok && b.history == old(b.history) + AllExchanged(batch, passes)
      invariant PassesOk(connected, passes) && open == OpenAfter(connected, passes)
      invariant passes != [] ==> Mendable(passes[|passes| - 1])
      decreases Max(retries, 0) - attempts
    {
      ghost var dial: Option<Result>, before := None, b.history;
      if !open {
        var d := b.Dial();
        dial := Some(d);
        if d.Failure? {
          ExchangedIs(batch, dial, None, before, b.history);
          passes := MorePasses(batch, connected, passes, Pass(dial, None), old(b.history), before, b.history);
          if ShouldRetry(d.err, retries, attempts) {
            attempts := attempts + 1;
            continue;
          }
          replies := RejectAll(batch);
          return;
        }
        open := true;
      }
      var r := b.Produce(batch);
      ExchangedIs(batch, dial, Some(r), before, b.history);
      passes := MorePasses(batch, connected, passes, Pass(dial, Some(r)), old(b.history), before, b.history);
      if r.Failure? {
        if r.err.duplicateSequence {
          ok := true;
          break;
        }
        if ShouldRetry(r.err, retries, attempts) {
          attempts := attempts + 1;
          if NeedsReconnect(r.err) {
            open := false;
          }
          continue;
        }
        break;
      }
      ok := true;
      break;
    }
    if !ok {
      replies := RejectAll(batch);
    } else {
      replies := AckAll(batch);
    }
  }

  lemma ExchangedIs(batch: seq<Message>, dial: Option<Result>, request: Option<Result>, before: seq<Exchange>,
                    after: seq<Exchange>)
    requires var dialed := if dial.Some? then before + [Dialed(dial.value)] else before;
             after == if request.Some? then dialed + [Produced(batch, request.value)] else dialed
    ensures after == before + Exchanged(batch, Pass(dial, request))
  {
  }

  lemma NoPasses(batch: seq<Message>, connected: bool)
    ensures AllExchanged(batch, []) == [] && PassesOk(connected, []) && OpenAfter(connected, []) == connected
  {
  }

  lemma MorePasses(batch: seq<Message>, connected: bool, passes: seq<Pass>, p: Pass, start: seq<Exchange>,
                   before: seq<Exchange>, after: seq<Exchange>)
    returns (all: seq<Pass>)
    requires PassesOk(connected, passes) && (passes != [] ==> Mendable(passes[|passes| - 1]))
    requires PassOk(p, OpenAfter(connected, passes))
    requires before == start + AllExchanged(batch, passes) && after == before + Exchanged(batch, p)
    ensures |all| == |passes| + 1 && all[|passes|] == p
    ensures PassesOk(connected, all) && OpenAfter(connected, all) == Connected(p)
    ensures after == start + AllExchanged(batch, all)
  {
    hide Mendable, PassOk, Exchanged, Connected, AllExchanged, PassesOk;
    all := passes + [p];
    PassesMore(connected, passes, p);
    ExchangedMore(batch, passes, p);
    assert start + (AllExchanged(batch, passes) + Exchanged(batch, p)) == before + Exchanged(batch, p);
  }

  lemma ExchangedMore(batch: seq<Message>, passes: seq<Pass>, p: Pass)
    ensures AllExchanged(batch, passes + [p]) == AllExchanged(batch, passes) + Exchanged(batch, p)
  {
    hide Exchanged;
    assert (passes + [p])[..|passes|] == passes;
  }

  lemma PassesMore(connected: bool, passes: seq<Pass>, p: Pass)
    requires PassesOk(connected, passes) && (passes != [] ==> Mendable(passes[|passes| - 1]))
    requires PassOk(p, OpenAfter(connected, passes))
    ensures PassesOk(connected, passes + [p])
  {
    hide Mendable, PassOk, OpenAfter;
    var all := passes + [p];
    assert all[..|passes|] == passes;
    assert forall k :: 0 <= k < |passes| ==> all[k] == passes[k] && all[..k] == passes[..k];
  }

  method AckAll(batch: seq<Message>) returns (replies: seq<Reply>)
    ensures replies == Replies(batch, true)
  {
    replies := [];
    for i := 0 to |batch|
      invariant |replies| == i && forall j :: 0 <= j < i ==> replies[j] == Ack
    {
      replies := replies + [Ack];
    }
  }

  method RejectAll(batch: seq<Message>) returns (replies: seq<Reply>)
    ensures replies == Replies(batch, false)
  {
    replies := [];
    for i := 0 to |batch|
      invariant |replies| == i && forall j :: 0 <= j < i ==> replies[j] == Rejected(batch[j])
    {
      replies := replies + [Rejected(batch[i])];
    }
  }
}
