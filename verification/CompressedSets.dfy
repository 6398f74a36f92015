/**
 A compressed message set of format 1 on its way from writeProduceRequestV2
 (write.go) to messageSetReaderV1 (message.go): the broker stores the wrapper
 as it is, but for its offset, which becomes that of the last message in it.
 */
module CompressedSets {
  import opened Wire
  import opened Codecs
  import opened Collections
  import opened ProduceRequests
  import MessageSet
  import Proofs = MessageSetProofs

  /** The messages inside the wrapper: numbered from zero and sealed. */
  function Inner(step: Step, msgs: seq<Message>): seq<MessageSet.Message> {
    var numbered := Numbered(msgs, 0);
    seq(|numbered|, i requires 0 <= i < |numbered| => Sealed(step, numbered[i], 0))
  }

  /** The message that compress returns, as it is sealed by writeMessage. */
  function Outer(c: Codec, step: Step, msgs: seq<Message>): MessageSet.Message {
    Sealed(step, Message(0, 0, Nil, Bytes(c.Encode(SetBytes(step, Numbered(msgs, 0), 0)))), c.code)
  }

  function Ones(ms: seq<MessageSet.Message>): (items: seq<MessageSet.Item>)
    ensures |items| == |ms|
  {
    seq(|ms|, i requires 0 <= i < |ms| => MessageSet.One(ms[i]))
  }

  lemma {:induction false} OnesBytes(ms: seq<MessageSet.Message>)
    ensures MessageSet.ItemsBytes(Ones(ms)) == MessageSet.SetBytes(ms)
    decreases |ms|
  {
    hide MessageSet.Encoded;
    if ms != [] {
      OnesBytes(ms[1..]);
      assert MessageSet.ItemBytes(MessageSet.One(ms[0])) == MessageSet.Encoded(ms[0], 0);
      assert Ones(ms)[1..] == Ones(ms[1..]);
    }
  }

  /** A set that is not compressed goes out as plain messages, each with its own checksum. */
  lemma PlainItems(step: Step, msgs: seq<Message>)
    ensures ToWrite(None, step, msgs)
         == MessageSet.ItemsBytes(Ones(seq(|msgs|, i requires 0 <= i < |msgs| => Sealed(step, msgs[i], 0))))
  {
    hide Sealed;
    SetBytesPlain(step, msgs);
    OnesBytes(seq(|msgs|, i requires 0 <= i < |msgs| => Sealed(step, msgs[i], 0)));
  }

  function Wrapper(c: Codec, step: Step, msgs: seq<Message>, offset: int): MessageSet.Item {
    MessageSet.Wrap(offset, Outer(c, step, msgs).crc, 1, 0, c, Ones(Inner(step, msgs)))
  }

  /** What the broker stores for a produced set whose last message gets this offset. */
  function Stored(produced: seq<byte>, last: int): seq<byte>
    requires |produced| >= 8
  {
    Int64(last) + produced[8..]
  }

  lemma OneMessage(step: Step, m: Message, attributes: int)
    ensures SetBytes(step, [m], attributes) == MessageSet.Encoded(Sealed(step, m, attributes), attributes)
  {
    hide Sealed, MessageSet.Encoded;
    assert SetBytes(step, [m][1..], attributes) == [];
  }

  /** The offset is the first field of a message, and no other field depends on it. */
  lemma OffsetFirst(m: MessageSet.Message, attributes: int, offset: int)
    ensures |MessageSet.Encoded(m, attributes)| >= 8
    ensures MessageSet.Encoded(m.(offset := offset), attributes) == Stored(MessageSet.Encoded(m, attributes), offset)
  {
    hide BigEndian, Blob;
  }

  /** With compression a produce request carries one wrapper, and the broker stores it with another offset. */
  lemma ProducesWrapper(c: Codec, step: Step, msgs: seq<Message>, last: int)
    ensures ToWrite(Some(c), step, msgs) == MessageSet.ItemBytes(Wrapper(c, step, msgs, 0))
    ensures |ToWrite(Some(c), step, msgs)| >= 8
    ensures Stored(ToWrite(Some(c), step, msgs), last) == MessageSet.ItemBytes(Wrapper(c, step, msgs, last))
  {
    hide MessageSet.Encoded, Fold, SetBytes;
    SetBytesPlain(step, Numbered(msgs, 0));
    var m := Message(0, 0, Nil, Bytes(c.Encode(SetBytes(step, Numbered(msgs, 0), 0))));
    OneMessage(step, m, c.code);
    OnesBytes(Inner(step, msgs));
    assert MessageSet.AsMessage(Wrapper(c, step, msgs, 0)) == Outer(c, step, msgs);
    OffsetFirst(Outer(c, step, msgs), c.code, last);
  }

  lemma {:induction false} NumberedAt(msgs: seq<Message>, first: nat, i: nat)
    requires i < |msgs|
    ensures |Numbered(msgs, first)| == |msgs|
    ensures Numbered(msgs, first)[i] == msgs[i].(offset := first + i)
    decreases |msgs|
  {
    if |msgs| > 1 {
      NumberedAt(msgs[1..], first + 1, if i == 0 then 0 else i - 1);
    } else {
      assert Numbered(msgs[1..], first + 1) == [];
    }
  }

  lemma {:induction false} FlattenOnes(ms: seq<MessageSet.Message>, base: int, i: nat)
    requires i < |ms|
    ensures |Proofs.Flatten(Ones(ms), base)| == |ms|
    ensures Proofs.Flatten(Ones(ms), base)[i] == Proofs.Expected(ms[i], base)
    decreases |ms|
  {
    hide Proofs.Expected;
    assert Ones(ms)[1..] == Ones(ms[1..]);
    assert Proofs.Inside(Ones(ms)[0], base) == [Proofs.Expected(ms[0], base)];
    if |ms| > 1 {
      FlattenOnes(ms[1..], base, if i == 0 then 0 else i - 1);
    } else {
      assert Proofs.Flatten(Ones(ms[1..]), base) == [];
    }
  }

  /** The i-th produced message, as it is to be read back. */
  function Consumed(m: Message, offset: int): MessageSet.Fetched {
    MessageSet.Fetched(offset, m.timestamp, m.key.Normal(), m.value.Normal())
  }

  /** The messages at consecutive offsets from the base on. */
  function Published(msgs: seq<Message>, base: int): seq<MessageSet.Fetched> {
    seq(|msgs|, i requires 0 <= i < |msgs| => Consumed(msgs[i], base + i))
  }

  /** What the codec and the sizes of the protocol allow. */
  ghost predicate Sendable(codecs: Registry, c: Codec, step: Step, msgs: seq<Message>) {
    && 1 <= c.code < 4 && Registered(codecs, c) && Inverse(c)
    && (forall m :: m in msgs ==> Fits(8, m.timestamp) && MessageSize(m) < 0x8000_0000)
    && MessageSet.Size(1, Nil, Outer(c, step, msgs).value) < 0x8000_0000
  }

  lemma InnerAt(step: Step, msgs: seq<Message>, i: nat)
    requires i < |msgs|
    ensures |Inner(step, msgs)| == |msgs|
    ensures Inner(step, msgs)[i] == Sealed(step, msgs[i].(offset := i), 0)
  {
    hide Sealed;
    NumberedAt(msgs, 0, i);
  }

  lemma FitsBelow(i: nat, n: int)
    requires i <= n && Fits(8, n)
    ensures Fits(8, i)
  {
  }

  lemma WrapFits(v: int)
    ensures Fits(4, Wrap32(v))
  {
  }

  /** A sealed message whose fields fit is one the reader understands. */
  lemma SealedFits(step: Step, m: Message, attributes: int, offset: int)
    requires Fits(8, offset) && Fits(8, m.timestamp) && MessageSize(m) < 0x8000_0000
    ensures Proofs.WellFormed(Sealed(step, m, attributes).(offset := offset))
  {
    hide Fold, Wrap32;
    WrapFits(Fold(step, 0, AfterCrc(1, attributes, m.timestamp, m.key, m.value)));
  }

  lemma InnerFits(codecs: Registry, c: Codec, step: Step, msgs: seq<Message>, base: nat, j: nat)
    requires Sendable(codecs, c, step, msgs) && j < |msgs| && Fits(8, base + |msgs| - 1)
    ensures |Inner(step, msgs)| == |msgs|
    ensures Proofs.WellFormed(Inner(step, msgs)[j]) && Fits(8, base + Inner(step, msgs)[j].offset)
  {
    hide Sealed, Inner, Fits, Proofs.WellFormed, Outer;
    var last := base + |msgs| - 1;
    var m := msgs[j].(offset := j);
    assert msgs[j] in msgs;
    InnerAt(step, msgs, j);
    SealedFields(step, m);
    FitsBelow(j, last);
    FitsBelow(base + j, last);
    SealedFits(step, m, 0, j);
  }

  lemma OuterFits(codecs: Registry, c: Codec, step: Step, msgs: seq<Message>, last: nat)
    requires Sendable(codecs, c, step, msgs) && Fits(8, last)
    ensures Proofs.WellFormed(MessageSet.AsMessage(Wrapper(c, step, msgs, last)))
  {
    hide Inner, SetBytes, Fits, MessageSet.SetBytes, Proofs.WellFormed, Fold;
    var m := Message(0, 0, Nil, Bytes(c.Encode(SetBytes(step, Numbered(msgs, 0), 0))));
    FitsBelow(0, last);
    SealedFits(step, m, c.code, last);
    InnerSet(step, msgs);
    OnesBytes(Inner(step, msgs));
    assert MessageSet.AsMessage(Wrapper(c, step, msgs, last)) == Sealed(step, m, c.code).(offset := last);
  }

  lemma InnerSet(step: Step, msgs: seq<Message>)
    ensures MessageSet.SetBytes(Inner(step, msgs)) == SetBytes(step, Numbered(msgs, 0), 0)
  {
    hide Sealed;
    SetBytesPlain(step, Numbered(msgs, 0));
  }

  lemma WrapperFits(codecs: Registry, c: Codec, step: Step, msgs: seq<Message>, base: nat)
    requires Sendable(codecs, c, step, msgs) && msgs != [] && Fits(8, base + |msgs| - 1)
    ensures Proofs.WellFormedItem(codecs, Wrapper(c, step, msgs, base + |msgs| - 1))
    ensures Proofs.Base(Wrapper(c, step, msgs, base + |msgs| - 1)) == base
  {
    hide Sealed, Inner, Outer, Fits, Proofs.WellFormed;
    var last := base + |msgs| - 1;
    var w := Wrapper(c, step, msgs, last);
    WrapperBase(c, step, msgs, base);
    FitsBelow(base, last);
    OuterFits(codecs, c, step, msgs, last);
    forall j | 0 <= j < |w.items|
      ensures Proofs.WellFormedItem(codecs, w.items[j]) && Fits(8, base + w.items[j].m.offset)
    {
      InnerFits(codecs, c, step, msgs, base, j);
    }
  }

  lemma WrapperBase(c: Codec, step: Step, msgs: seq<Message>, base: nat)
    requires msgs != []
    ensures var w := Wrapper(c, step, msgs, base + |msgs| - 1);
            |w.items| == |msgs| && Proofs.Base(w) == base
  {
    hide Sealed, Inner, Outer;
    InnerAt(step, msgs, |msgs| - 1);
    SealedFields(step, msgs[|msgs| - 1].(offset := |msgs| - 1));
  }

  lemma FlattenedWrapper(c: Codec, step: Step, msgs: seq<Message>, base: nat)
    requires msgs != []
    ensures Proofs.Flatten([Wrapper(c, step, msgs, base + |msgs| - 1)], 0) == Published(msgs, base)
  {
    hide Outer, Sealed, Inner;
    var w := Wrapper(c, step, msgs, base + |msgs| - 1);
    WrapperBase(c, step, msgs, base);
    var inner := Inner(step, msgs);
    var all := Proofs.Flatten(w.items, base);
    forall i | 0 <= i < |msgs|
      ensures |all| == |msgs| && all[i] == Consumed(msgs[i], base + i)
    {
      InnerAt(step, msgs, i);
      FlattenOnes(inner, base, i);
      SealedFields(step, msgs[i].(offset := i));
    }
    assert |all| == |msgs| by {
      InnerAt(step, msgs, 0);
      FlattenOnes(inner, base, 0);
    }
    assert Proofs.Flatten([w], 0) == all + [] by {
      assert [w][1..] == [];
    }
    assert all + [] == all == Published(msgs, base);
  }

  lemma SealedFields(step: Step, m: Message)
    ensures var s := Sealed(step, m, 0);
            s.offset == m.offset && s.magic == 1 && s.timestamp == m.timestamp && s.key == m.key && s.value == m.value
  {
  }

  /**
   Messages compressed into one wrapper, stored by the broker so that the first
   of them is at any offset `base`, and fetched again: the reader serves them
   all, in the order of the call, at consecutive offsets from `base` on and with
   their own times, keys and values, and consumes exactly the wrapper.
   */
  lemma ProducedIsServed(codecs: Registry, c: Codec, step: Step, msgs: seq<Message>, base: nat, rest: seq<byte>)
    requires Sendable(codecs, c, step, msgs) && msgs != [] && Fits(8, base + |msgs| - 1)
    ensures |ToWrite(Some(c), step, msgs)| >= 8
    ensures var stored := Stored(ToWrite(Some(c), step, msgs), base + |msgs| - 1);
            Proofs.Serves(codecs, MessageSet.State(Src(stored + rest, |stored|), false, []), Published(msgs, base),
                          Proofs.End(rest))
  {
    hide Proofs.Serves, Wrapper, Sendable, MessageSet.ItemBytes, ToWrite, Stored, Published, Proofs.Flatten;
    hide Proofs.WellFormedItem;
    var last := base + |msgs| - 1;
    var w := Wrapper(c, step, msgs, last);
    ProducesWrapper(c, step, msgs, last);
    WrapperFits(codecs, c, step, msgs, base);
    FlattenedWrapper(c, step, msgs, base);
    Proofs.Served(codecs, [w], rest);
    Proofs.OneBytes(w);
  }
}
