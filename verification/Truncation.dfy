/**
 Responses cut off in the middle of a message (batch.go): a broker that was
 asked for so many bytes sends no more, and what the last message lacks shows
 as a short read.  A reader on a source that is cut off does what it does on
 the full one, until it runs into the end of the frame.
 */
module Truncation {
  import opened Wire
  import opened Codecs
  import MessageSet
  import Proofs = MessageSetProofs

  /** `s` has the same bytes as `full`, but the frame ends before. */
  ghost predicate Cut(s: Src, full: Src) {
    && full.remain == |full.data|
    && s.remain < full.remain && s.remain <= |s.data|
    && s.data[..s.remain] == full.data[..s.remain]
  }

  /** What is read from a source that is cut off: the same as from the full one, or a short read. */
  ghost predicate Follows<T>(r: R<T>, full: R<T>) {
    full.Ok? ==>
      if r.Ok? then r.value == full.value && Cut(r.rest, full.rest) else r.error == ShortRead
  }

  lemma FollowInt(s: Src, full: Src, n: nat)
    requires Cut(s, full)
    ensures Follows(ReadInt(s, n), ReadInt(full, n))
  {
    hide Signed;
    if n <= s.remain {
      assert s.data[..n] == s.data[..s.remain][..n];
      CutDrop(s, full, n);
    }
  }

  lemma CutDrop(s: Src, full: Src, n: nat)
    requires Cut(s, full) && n <= s.remain
    ensures full.data[..n] == s.data[..n] && Cut(s.Drop(n), full.Drop(n))
  {
    assert s.data[..n] == s.data[..s.remain][..n];
    assert s.data[n..s.remain] == s.data[..s.remain][n..];
  }

  lemma FollowDiscard(s: Src, full: Src, n: int)
    requires Cut(s, full)
    ensures Follows(DiscardN(s, n), DiscardN(full, n))
  {
    if 0 <= n <= s.remain {
      CutDrop(s, full, n);
    }
  }

  lemma FollowNewBytes(s: Src, full: Src, n: int)
    requires Cut(s, full)
    ensures Follows(ReadNewBytes(s, n), ReadNewBytes(full, n))
  {
    if 0 <= n <= s.remain {
      CutDrop(s, full, n);
    }
  }

  lemma FollowLength(s: Src, full: Src, width: nat)
    requires Cut(s, full)
    ensures Follows(ReadLength(s, width), ReadLength(full, width))
  {
    hide ReadInt;
    FollowInt(s, full, width);
  }

  lemma FollowBytes(s: Src, full: Src)
    requires Cut(s, full)
    ensures Follows(ReadBytes(s), ReadBytes(full))
    ensures Follows(DiscardSized(s, 4), DiscardSized(full, 4))
  {
    hide ReadLength, ReadNewBytes, DiscardN, Cut;
    FollowLength(s, full, 4);
    var a, b := ReadLength(s, 4), ReadLength(full, 4);
    if a.Ok? && b.Ok? {
      FollowNewBytes(a.rest, b.rest, a.value);
      FollowDiscard(a.rest, b.rest, a.value);
    }
  }

  // ---------------------------------------------------------------------
  // Formats 0 and 1
  // ---------------------------------------------------------------------

  lemma FollowTimestamp(offset: int, version: int, attributes: int, s: Src, full: Src)
    requires Cut(s, full)
    ensures Follows(MessageSet.ReadTimestamp(offset, version, attributes, s),
                    MessageSet.ReadTimestamp(offset, version, attributes, full))
  {
    hide ReadInt, Cut;
    FollowInt(s, full, 8);
  }

  lemma FollowHead(s: Src, full: Src)
    requires Cut(s, full)
    ensures Follows(MessageSet.ReadHead(s), MessageSet.ReadHead(full))
  {
    hide ReadInt, DiscardN, Cut, MessageSet.ReadTimestamp;
    FollowInt(s, full, 8);
    var a, a' := ReadInt(s, 8), ReadInt(full, 8);
    if a.Ok? && a'.Ok? {
      FollowDiscard(a.rest, a'.rest, 8);
      var b, b' := DiscardN(a.rest, 8), DiscardN(a'.rest, 8);
      if b.Ok? && b'.Ok? {
        FollowInt(b.rest, b'.rest, 1);
        var c, c' := ReadInt(b.rest, 1), ReadInt(b'.rest, 1);
        if c.Ok? && c'.Ok? {
          FollowInt(c.rest, c'.rest, 1);
          var d, d' := ReadInt(c.rest, 1), ReadInt(c'.rest, 1);
          if d.Ok? && d'.Ok? {
            FollowTimestamp(a.value, c.value, d.value, d.rest, d'.rest);
          }
        }
      }
    }
  }

  lemma FollowKeyValue(s: Src, full: Src)
    requires Cut(s, full)
    ensures Follows(MessageSet.ReadKeyValue(s), MessageSet.ReadKeyValue(full))
    ensures Follows(MessageSet.SkipKeyValue(s), MessageSet.SkipKeyValue(full))
  {
    hide ReadBytes, DiscardSized, Cut;
    FollowBytes(s, full);
    var a, a' := ReadBytes(s), ReadBytes(full);
    if a.Ok? && a'.Ok? {
      FollowBytes(a.rest, a'.rest);
    }
    var b, b' := DiscardSized(s, 4), DiscardSized(full, 4);
    if b.Ok? && b'.Ok? {
      FollowBytes(b.rest, b'.rest);
    }
  }

  lemma FollowPayload(s: Src, full: Src)
    requires Cut(s, full)
    ensures Follows(MessageSet.ReadPayload(s), MessageSet.ReadPayload(full))
  {
    hide ReadBytes, DiscardN, Cut;
    FollowDiscard(s, full, 4);
    var a, a' := DiscardN(s, 4), DiscardN(full, 4);
    if a.Ok? && a'.Ok? {
      FollowBytes(a.rest, a'.rest);
    }
  }

  /** Where a short read leaves the connection: discarding ends exactly behind the response. */
  ghost function CutOff(rest: seq<byte>): iset<MessageSet.State> {
    iset f: MessageSet.State |
      !f.done && f.conn.remain <= |f.conn.data| && f.conn.data[f.conn.remain..] == rest
  }

  /** A message of which only the first `n` bytes came. */
  lemma CutTurn(codecs: Registry, i: MessageSet.Item, n: nat, rest: seq<byte>, min: int)
    requires Proofs.WellFormedItem(codecs, i) && 0 < n < |MessageSet.ItemBytes(i)|
    ensures var st := MessageSet.State(Src(MessageSet.ItemBytes(i)[..n] + rest, n), false, []);
            var p := MessageSet.Turn(codecs, st, min);
            p.Return? && p.result.Failed? && p.result.err == ShortRead && p.result.next in CutOff(rest)
  {
    hide MessageSet.ReadHead, MessageSet.Descend, MessageSet.Deliver, MessageSet.Encoded, Cut, Proofs.WellFormed, Tail;
    var bytes := MessageSet.ItemBytes(i);
    var s, full := Src(bytes[..n] + rest, n), Src(bytes, |bytes|);
    var st := MessageSet.State(s, false, []);
    var m, code := MessageSet.AsMessage(i), MessageSet.Code(i);
    CutPrefix(bytes, n, rest);
    CodeSmall(codecs, i);
    assert bytes + [] == bytes;
    Proofs.TopHead(m, code, [], 0);
    FollowHead(s, full);
    var x := Blob(m.key) + Blob(m.value);
    assert x + [] == x;
    var a := MessageSet.ReadHead(s);
    if a.Ok? {
      CutRest(codecs, i, st, a.rest, min);
    }
    MessageSet.TurnConserves(codecs, st, min);
    StaysOpen(codecs, st, min);
    Leaves(bytes[..n], rest, MessageSet.StateOf(MessageSet.Turn(codecs, st, min)));
  }

  lemma CutPrefix(bytes: seq<byte>, n: nat, rest: seq<byte>)
    requires n < |bytes|
    ensures Cut(Src(bytes[..n] + rest, n), Src(bytes, |bytes|))
  {
  }

  lemma CodeSmall(codecs: Registry, i: MessageSet.Item)
    requires Proofs.WellFormedItem(codecs, i)
    ensures Proofs.WellFormed(MessageSet.AsMessage(i)) && 0 <= MessageSet.Code(i) < 4
    ensures i.Wrap? ==> MessageSet.AsMessage(i).key == Nil && MessageSet.Code(i) > 0 && MessageSet.Code(i) in codecs
  {
  }

  lemma StaysOpen(codecs: Registry, st: MessageSet.State, min: int)
    requires !st.done && st.Top().src.remain > 0
    ensures !MessageSet.StateOf(MessageSet.Turn(codecs, st, min)).done
  {
    hide MessageSet.ReadHead, MessageSet.Descend, MessageSet.Deliver;
    var r := MessageSet.ReadHead(st.Top().src);
    if r.Ok? {
      MessageSet.KeepsDone(codecs, st, r.value, r.rest, min);
    }
  }

  lemma Leaves(bytes: seq<byte>, rest: seq<byte>, f: MessageSet.State)
    requires !f.done && Tail(Src(bytes + rest, |bytes|), f.conn)
    ensures f in CutOff(rest)
  {
    var k := |bytes| - f.conn.remain;
    assert f.conn.data == (bytes + rest)[k..];
    assert f.conn.data[f.conn.remain..] == rest;
  }

  /** The head came in full, key and value did not. */
  lemma CutRest(codecs: Registry, i: MessageSet.Item, st: MessageSet.State, s: Src, min: int)
    requires Proofs.WellFormedItem(codecs, i)
    requires var m := MessageSet.AsMessage(i);
             var x := Blob(m.key) + Blob(m.value);
             Cut(s, Src(x, |x|))
    ensures var m := MessageSet.AsMessage(i);
            var h := MessageSet.Head(m.offset, MessageSet.Code(i), if m.magic == 0 then 0 else m.timestamp);
            var p := if h.attributes % 4 != 0 then MessageSet.Descend(codecs, st, h, s)
                else MessageSet.Deliver(st, h, s, min);
            p.Return? && p.result.Failed? && p.result.err == ShortRead
  {
    hide MessageSet.ReadKeyValue, MessageSet.SkipKeyValue, MessageSet.ReadPayload, Blob, Wrap64, Proofs.WellFormed;
    hide MessageSet.AsMessage, Proofs.WellFormedItem;
    var m := MessageSet.AsMessage(i);
    var x := Blob(m.key) + Blob(m.value);
    var full := Src(x, |x|);
    assert x + [] == x;
    CodeSmall(codecs, i);
    SizesFit(m);
    if MessageSet.Code(i) != 0 {
      Proofs.ReadsPayload(m.value, [], 0);
      FollowPayload(s, full);
    } else {
      Proofs.ReadsKeyValue(m.key, m.value, [], 0);
      FollowKeyValue(s, full);
    }
  }

  lemma SizesFit(m: MessageSet.Message)
    requires Proofs.WellFormed(m)
    ensures m.key.Len() < 0x8000_0000 && m.value.Len() < 0x8000_0000
  {
  }

  /** How many items came in full. */
  function Complete(items: seq<MessageSet.Item>, n: nat): (k: nat)
    ensures k <= |items|
    decreases |items|
  {
    if items == [] || n < |MessageSet.ItemBytes(items[0])| then 0
    else 1 + Complete(items[1..], n - |MessageSet.ItemBytes(items[0])|)
  }

  lemma {:induction false} CompleteSplits(items: seq<MessageSet.Item>, n: nat)
    requires n <= |MessageSet.ItemsBytes(items)|
    ensures var k := Complete(items, n);
            var done := |MessageSet.ItemsBytes(items[..k])|;
            && done <= n
            && (k == |items| ==> n == done)
            && (k < |items| ==> n - done < |MessageSet.ItemBytes(items[k])|)
            && MessageSet.ItemsBytes(items)[..n]
               == MessageSet.ItemsBytes(items[..k]) + if k < |items| then MessageSet.ItemBytes(items[k])[..n - done]
                   else []
    decreases |items|
  {
    hide MessageSet.ItemBytes;
    var k := Complete(items, n);
    if items == [] || n < |MessageSet.ItemBytes(items[0])| {
      assert items[..0] == [];
      if items != [] {
        assert MessageSet.ItemsBytes(items)[..n] == MessageSet.ItemBytes(items[0])[..n];
        assert [] + MessageSet.ItemBytes(items[0])[..n] == MessageSet.ItemBytes(items[0])[..n];
      }
    } else {
      var first, more := MessageSet.ItemBytes(items[0]), items[1..];
      CompleteSplits(more, n - |first|);
      assert items[..k][1..] == more[..k - 1] && items[..k][0] == items[0];
      assert MessageSet.ItemsBytes(items)[..n] == first + MessageSet.ItemsBytes(more)[..n - |first|];
      assert k < |items| ==> items[k] == more[k - 1];
      Assoc(first, MessageSet.ItemsBytes(more[..k - 1]),
            if k < |items| then MessageSet.ItemBytes(items[k])[..n - |MessageSet.ItemsBytes(items[..k])|] else []);
    }
  }

  /**
   Any prefix of a response of format 0 or 1 serves the messages of the items
   that came in full, then gives a short read, after which discarding leaves the
   connection exactly behind the response.
   */
  lemma OldCut(codecs: Registry, items: seq<MessageSet.Item>, n: nat, rest: seq<byte>)
    requires Proofs.AllItems(codecs, items) && n <= |MessageSet.ItemsBytes(items)|
    ensures var bytes := MessageSet.ItemsBytes(items)[..n];
            Proofs.Serves(codecs, MessageSet.State(Src(bytes + rest, n), false, []),
                          Proofs.Flatten(items[..Complete(items, n)], 0), Proofs.End(rest) + CutOff(rest))
  {
    hide Proofs.Serves, MessageSet.ItemsBytes, MessageSet.ItemBytes, Proofs.Flatten, Proofs.WellFormedItem;
    hide Complete, Fits;
    var ends := Proofs.End(rest) + CutOff(rest);
    var k := Complete(items, n);
    var whole := items[..k];
    CompleteSplits(items, n);
    var done := |MessageSet.ItemsBytes(whole)|;
    var part := if k < |items| then MessageSet.ItemBytes(items[k])[..n - done] else [];
    if n == done {
      assert part + rest == rest;
      Proofs.ServesEnd(codecs, rest);
      MoreEnds(codecs, MessageSet.State(Src(rest, 0), false, []), [], Proofs.End(rest), ends);
    } else {
      CutServes(codecs, items[k], n - done, rest);
    }
    forall j | 0 <= j < |whole| && whole[j].One?
      ensures Fits(8, 0 + whole[j].m.offset)
    {
      Proofs.OffsetFits(codecs, whole[j]);
    }
    Assoc(MessageSet.ItemsBytes(whole), part, rest);
    var st := MessageSet.State(Src(MessageSet.ItemsBytes(whole) + (part + rest), done + |part|), false, []);
    Proofs.ServesItems(codecs, st, whole, part + rest, |part|, [], ends);
    assert Proofs.Flatten(whole, 0) + [] == Proofs.Flatten(whole, 0);
  }

  lemma CutServes(codecs: Registry, i: MessageSet.Item, n: nat, rest: seq<byte>)
    requires Proofs.WellFormedItem(codecs, i) && 0 < n < |MessageSet.ItemBytes(i)|
    ensures Proofs.Serves(codecs, MessageSet.State(Src(MessageSet.ItemBytes(i)[..n] + rest, n), false, []), [],
                          Proofs.End(rest) + CutOff(rest))
  {
    hide MessageSet.Turn, MessageSet.ItemBytes, Proofs.WellFormedItem;
    var st := MessageSet.State(Src(MessageSet.ItemBytes(i)[..n] + rest, n), false, []);
    forall min
      ensures Proofs.ServesAt(codecs, st, min, [], Proofs.End(rest) + CutOff(rest))
    {
      CutTurn(codecs, i, n, rest, min);
      assert MessageSet.Turns(codecs, st, min, 1) == MessageSet.Turn(codecs, st, min);
    }
  }

  lemma {:induction false} MoreEnds(codecs: Registry, st: MessageSet.State, ms: seq<MessageSet.Fetched>,
                                    a: iset<MessageSet.State>, b: iset<MessageSet.State>)
    requires Proofs.Serves(codecs, st, ms, a) && a <= b && ms == []
    ensures Proofs.Serves(codecs, st, ms, b)
  {
    hide MessageSet.Turns;
    forall min
      ensures Proofs.ServesAt(codecs, st, min, ms, b)
    {
      assert Proofs.ServesAt(codecs, st, min, ms, a);
    }
  }
}
