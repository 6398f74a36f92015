/**
 Reading back a format 0 / 1 message set: exactly the messages at or past the
 minimum, in order, at their absolute offsets, also out of compressed wrappers.
 */
module MessageSetProofs {
  import opened Collections
  import opened Wire
  import opened Codecs
  import opened MessageSet

  // ---------------------------------------------------------------------
  // What the writers can produce
  // ---------------------------------------------------------------------

  ghost predicate WellFormed(m: Message) {
    && Fits(8, m.offset) && Fits(4, m.crc) && Fits(8, m.timestamp)
    && (m.magic == 0 || m.magic == 1)
    && Size(m.magic, m.key, m.value) < 0x8000_0000
  }

  /** The first offset of a wrapper: its own is the offset of the last message in it. */
  function Base(i: Item): int
    requires i.Wrap?
  {
    i.offset - LastOf(i.items, 0)
  }

  function LastOf(items: seq<Item>, none: int): int {
    if items == [] then none else AsMessage(items[|items| - 1]).offset
  }

  ghost predicate WellFormedItem(codecs: Registry, i: Item)
    decreases i
  {
    && WellFormed(AsMessage(i))
    && (i.Wrap? ==>
          && 1 <= i.codec.code < 4 && Registered(codecs, i.codec) && Inverse(i.codec)
          && Fits(8, Base(i)) && PlainFit(i.items, Base(i))
          && forall j :: 0 <= j < |i.items| ==> WellFormedItem(codecs, i.items[j]))
  }

  ghost predicate AllItems(codecs: Registry, items: seq<Item>) {
    forall i :: 0 <= i < |items| ==> WellFormedItem(codecs, items[i])
  }

  ghost predicate PlainFit(items: seq<Item>, base: int) {
    forall j :: 0 <= j < |items| && items[j].One? ==> Fits(8, base + items[j].m.offset)
  }

  function Expected(m: Message, base: int): Fetched {
    Fetched(base + m.offset, if m.magic == 0 then 0 else m.timestamp, m.key.Normal(), m.value.Normal())
  }

  /** Every message of the set, in a frame with this base; the messages in a wrapper get the base of that alone. */
  function Flatten(items: seq<Item>, base: int): seq<Fetched>
    decreases items
  {
    if items == [] then [] else Inside(items[0], base) + Flatten(items[1..], base)
  }

  function Inside(i: Item, base: int): seq<Fetched>
    decreases i
  {
    if i.One? then [Expected(i.m, base)] else Flatten(i.items, Base(i))
  }

  function AtLeast(ms: seq<Fetched>, min: int): seq<Fetched> {
    if ms == [] then []
    else (if ms[0].offset >= min then [ms[0]] else []) + AtLeast(ms[1..], min)
  }

  // ---------------------------------------------------------------------
  // One message off the top frame
  // ---------------------------------------------------------------------

  lemma FitsSmall(v: int)
    requires 0 <= v < 128
    ensures Fits(1, v)
  {
  }

  lemma FitsWrap(v: int)
    requires Fits(8, v)
    ensures Wrap64(v) == v
  {
    Widths();
  }

  lemma PrefixParts(offset: int, size: int, crc: int, magic: int, attributes: int, ts: int, rest: seq<byte>)
    ensures var t := if magic != 0 then Int64(ts) else [];
            && Prefix(offset, size, crc, magic, attributes, ts) + rest
               == Int64(offset) + ((Int32(size) + Int32(crc)) + (Int8(magic) + (Int8(attributes) + (t + rest))))
            && |Prefix(offset, size, crc, magic, attributes, ts)| == 18 + |t|
  {
    hide BigEndian;
    var t := if magic != 0 then Int64(ts) else [];
    var a, b, c, d := Int64(offset), Int32(size) + Int32(crc), Int8(magic), Int8(attributes);
    Assoc(a + b + (c + d), t, rest);
    Assoc(a + b, c + d, t + rest);
    Assoc(a, b, c + d + (t + rest));
    Assoc(c, d, t + rest);
  }

  lemma ReadsTimestamp(offset: int, magic: int, attributes: int, ts: int, rest: seq<byte>, k: nat)
    requires Fits(8, ts) && (magic == 0 || magic == 1)
    ensures var t := if magic != 0 then Int64(ts) else [];
            ReadTimestamp(offset, magic, attributes, Src(t + rest, |t| + k))
            == Ok(Head(offset, attributes, if magic == 0 then 0 else ts), Src(rest, k))
  {
    hide Fits, BigEndian, Signed;
    if magic == 0 {
      assert [] + rest == rest;
    } else {
      ReadsInt(8, ts, rest, 8 + k);
    }
  }

  lemma ReadsHead(m: Message, attributes: int, rest: seq<byte>, k: nat)
    requires WellFormed(m) && 0 <= attributes < 128
    ensures var p := Prefix(m.offset, Size(m.magic, m.key, m.value), m.crc, m.magic, attributes, m.timestamp);
            ReadHead(Src(p + rest, |p| + k))
            == Ok(Head(m.offset, attributes, if m.magic == 0 then 0 else m.timestamp), Src(rest, k))
  {
    hide Fits, BigEndian, Signed, ReadTimestamp, Prefix, ReadInt;
    var size := Size(m.magic, m.key, m.value);
    PrefixParts(m.offset, size, m.crc, m.magic, attributes, m.timestamp, rest);
    FitsSmall(m.magic);
    FitsSmall(attributes);
    var t := if m.magic != 0 then Int64(m.timestamp) else [];
    var w := t + rest;
    var v := Int8(attributes) + w;
    var u := Int8(m.magic) + v;
    var skipped := Int32(size) + Int32(m.crc);
    ReadsInt(8, m.offset, skipped + u, 18 + |t| + k);
    assert (skipped + u)[8..] == u;
    ReadsInt(1, m.magic, v, 2 + |t| + k);
    ReadsInt(1, attributes, w, 1 + |t| + k);
    ReadsTimestamp(m.offset, m.magic, attributes, m.timestamp, rest, k);
  }

  lemma ReadsKeyValue(key: Slice, value: Slice, rest: seq<byte>, k: nat)
    requires key.Len() < 0x8000_0000 && value.Len() < 0x8000_0000
    ensures var x := Blob(key) + Blob(value);
            var s := Src(x + rest, |x| + k);
            && ReadKeyValue(s) == Ok((key.Normal(), value.Normal()), Src(rest, k))
            && SkipKeyValue(s) == Ok((), Src(rest, k))
  {
    hide ReadBytes, DiscardSized, BigEndian;
    var x, y := Blob(key), Blob(value);
    Assoc(x, y, rest);
    ReadsBytes(key, y + rest, |x| + |y| + k);
    ReadsBytes(value, rest, |y| + k);
    DiscardsBytes(key, y + rest, |x| + |y| + k);
    DiscardsBytes(value, rest, |y| + k);
  }

  lemma ReadsPayload(value: Slice, rest: seq<byte>, k: nat)
    requires value.Len() < 0x8000_0000
    ensures var x := Blob(Nil) + Blob(value);
            ReadPayload(Src(x + rest, |x| + k)) == Ok(value.Normal(), Src(rest, k))
  {
    hide ReadBytes, BigEndian;
    var x, y := Blob(Nil), Blob(value);
    Assoc(x, y, rest);
    assert |x| == 4 && (x + (y + rest))[4..] == y + rest;
    ReadsBytes(value, rest, |y| + k);
  }

  lemma Splits(m: Message, attributes: int, rest: seq<byte>)
    ensures var p := Prefix(m.offset, Size(m.magic, m.key, m.value), m.crc, m.magic, attributes, m.timestamp);
            var x := Blob(m.key) + Blob(m.value);
            Encoded(m, attributes) + rest == p + (x + rest) && |Encoded(m, attributes)| == |p| + |x|
  {
    hide Prefix, Blob;
    Assoc(Prefix(m.offset, Size(m.magic, m.key, m.value), m.crc, m.magic, attributes, m.timestamp),
          Blob(m.key) + Blob(m.value), rest);
  }

  lemma EncodedPositive(m: Message, attributes: int)
    ensures |Encoded(m, attributes)| > 0
  {
    hide Blob;
  }

  /** Head and what follows it, for any message on top. */
  lemma TopHead(m: Message, attributes: int, rest: seq<byte>, k: nat)
    requires WellFormed(m) && 0 <= attributes < 128
    ensures var x := Blob(m.key) + Blob(m.value);
            ReadHead(Src(Encoded(m, attributes) + rest, |Encoded(m, attributes)| + k))
            == Ok(Head(m.offset, attributes, if m.magic == 0 then 0 else m.timestamp), Src(x + rest, |x| + k))
  {
    hide Prefix, Blob, Encoded, ReadHead, WellFormed, Size;
    Splits(m, attributes, rest);
    var x := Blob(m.key) + Blob(m.value);
    ReadsHead(m, attributes, x + rest, |x| + k);
  }

  /** A plain message on the top frame is delivered, or skipped when it is before the minimum. */
  lemma PlainTurn(codecs: Registry, st: State, m: Message, rest: seq<byte>, k: nat, min: int)
    requires !st.done && WellFormed(m) && Fits(8, m.offset + st.Top().base)
    requires st.Top().src == Src(Encoded(m, 0) + rest, |Encoded(m, 0)| + k)
    ensures var e := Expected(m, st.Top().base);
            Turn(codecs, st, min)
            == if e.offset < min then Continue(st.SetTop(Src(rest, k))) else Return(Got(e, st.SetTop(Src(rest, k))))
  {
    hide Blob, Encoded, ReadHead, Fits, Wrap64, ReadKeyValue, SkipKeyValue;
    EncodedPositive(m, 0);
    TopHead(m, 0, rest, k);
    FitsWrap(m.offset + st.Top().base);
    ReadsKeyValue(m.key, m.value, rest, k);
  }

  // ---------------------------------------------------------------------
  // Wrappers
  // ---------------------------------------------------------------------

  lemma ScansOne(m: Message, attributes: int, rest: seq<byte>, k: nat, last: int)
    requires WellFormed(m)
    ensures LastOffset(Src(Encoded(m, attributes) + rest, |Encoded(m, attributes)| + k), last)
         == LastOffset(Src(rest, k), m.offset)
  {
    hide Fits, BigEndian, Signed, ReadInt, Blob;
    var size := Size(m.magic, m.key, m.value);
    Splits(m, attributes, rest);
    ScansParts(m, attributes, rest);
    var tail := Encoded(m, attributes)[12..];
    SizeFits(m);
    ReadsInt(8, m.offset, Int32(size) + (tail + rest), 12 + size + k);
    ReadsInt(4, size, tail + rest, 4 + size + k);
    assert (tail + rest)[size..] == rest;
  }

  lemma SizeFits(m: Message)
    requires WellFormed(m)
    ensures Fits(4, Size(m.magic, m.key, m.value))
  {
    Widths();
  }

  lemma ScansParts(m: Message, attributes: int, rest: seq<byte>)
    ensures var size := Size(m.magic, m.key, m.value);
            var e := Encoded(m, attributes);
            && |e| == 12 + size
            && e + rest == Int64(m.offset) + (Int32(size) + (e[12..] + rest))
  {
    hide BigEndian;
    var size := Size(m.magic, m.key, m.value);
    var e, tail := Encoded(m, attributes), Encoded(m, attributes)[12..];
    PrefixParts(m.offset, size, m.crc, m.magic, attributes, m.timestamp, Blob(m.key) + Blob(m.value));
    assert e[..8] == Int64(m.offset);
    assert e[8..12] == Int32(size);
    assert e == Int64(m.offset) + (Int32(size) + tail);
    Assoc(Int64(m.offset), Int32(size) + tail, rest);
    Assoc(Int32(size), tail, rest);
  }

  lemma {:induction false} ScansAll(codecs: Registry, items: seq<Item>, last: int)
    requires AllItems(codecs, items)
    ensures LastOffset(Src(ItemsBytes(items), |ItemsBytes(items)|), last) == Ok(LastOf(items, last), Src([], 0))
    decreases |items|
  {
    hide Encoded, WellFormed, AsMessage, LastOffset;
    if items == [] {
      ScansNothing(last);
    } else {
      var more := items[1..];
      assert WellFormedItem(codecs, items[0]);
      ScansOne(AsMessage(items[0]), Code(items[0]), ItemsBytes(more), |ItemsBytes(more)|, last);
      ScansAll(codecs, more, AsMessage(items[0]).offset);
    }
  }

  lemma ScansNothing(last: int)
    ensures LastOffset(Src([], 0), last) == Ok(last, Src([], 0))
  {
  }

  /**
   A compressed message on the top frame, at any depth: its payload `d` is
   pushed with a base of its own, to which the base of the frame it was read from
   is not added.
   */
  lemma PayloadTurn(codecs: Registry, st: State, m: Message, c: Codec, d: seq<byte>, last: int, rest: seq<byte>,
                    k: nat, min: int)
    requires !st.done && Compressed(codecs, m, c, d) && Fits(8, m.offset - last)
    requires LastOffset(Src(d, |d|), 0).Ok? && LastOffset(Src(d, |d|), 0).value == last
    requires st.Top().src == Src(Encoded(m, c.code) + rest, |Encoded(m, c.code)| + k)
    ensures var t := st.SetTop(Src(rest, k));
            Turn(codecs, st, min) == Continue(t.(above := t.above + [Frame(Src(d, |d|), m.offset - last)]))
  {
    hide Blob, Encoded, ReadHead, Descend, WellFormed, LastOffset, Fits;
    EncodedPositive(m, c.code);
    TopHead(m, c.code, rest, k);
    PayloadDescends(codecs, st, m, c, d, last, rest, k, if m.magic == 0 then 0 else m.timestamp);
  }

  ghost predicate Compressed(codecs: Registry, m: Message, c: Codec, d: seq<byte>) {
    && 1 <= c.code < 4 && Registered(codecs, c) && Inverse(c)
    && m.key == Nil && m.value == Bytes(c.Encode(d)) && WellFormed(m)
  }

  lemma PayloadDescends(codecs: Registry, st: State, m: Message, c: Codec, d: seq<byte>, last: int, rest: seq<byte>,
                        k: nat, ts: int)
    requires Compressed(codecs, m, c, d) && Fits(8, m.offset - last)
    requires LastOffset(Src(d, |d|), 0).Ok? && LastOffset(Src(d, |d|), 0).value == last
    ensures var x := Blob(m.key) + Blob(m.value);
            var t := st.SetTop(Src(rest, k));
            Descend(codecs, st, Head(m.offset, c.code, ts), Src(x + rest, |x| + k))
            == Continue(t.(above := t.above + [Frame(Src(d, |d|), m.offset - last)]))
  {
    hide Blob, ReadPayload, WellFormed, Fits, LastOffset, Wrap64;
    PayloadFits(m);
    ReadsPayload(m.value, rest, k);
    assert m.value.Normal().Contents() == c.Encode(d);
    FitsWrap(m.offset - last);
  }

  /** A wrapper, whatever is in it. */
  lemma WrapTurn(codecs: Registry, st: State, i: Item, rest: seq<byte>, k: nat, min: int)
    requires !st.done && i.Wrap? && WellFormedItem(codecs, i)
    requires st.Top().src == Src(ItemBytes(i) + rest, |ItemBytes(i)| + k)
    ensures var t, d := st.SetTop(Src(rest, k)), ItemsBytes(i.items);
            Turn(codecs, st, min) == Continue(t.(above := t.above + [Frame(Src(d, |d|), Base(i))]))
  {
    hide Encoded, Turn, WellFormed, ItemsBytes, Fits, LastOffset;
    ScansAll(codecs, i.items, 0);
    PayloadTurn(codecs, st, AsMessage(i), i.codec, ItemsBytes(i.items), LastOf(i.items, 0), rest, k, min);
  }

  lemma PayloadFits(m: Message)
    requires WellFormed(m)
    ensures m.value.Len() < 0x8000_0000
  {
  }

  // ---------------------------------------------------------------------
  // Whole sets
  // ---------------------------------------------------------------------

  /** The messages from the first one at or past `min` on. */
  function From(ms: seq<Fetched>, min: int): (r: seq<Fetched>)
    ensures |r| <= |ms|
    decreases |ms|
  {
    if ms != [] && ms[0].offset < min then From(ms[1..], min) else ms
  }

  /**
   From `st` the messages `ms` can be read, with any minimum in any read: each
   read gives the next message at or past its minimum, and when there is none, a
   short read that leaves one of `ends`.
   */
  ghost predicate Serves(codecs: Registry, st: State, ms: seq<Fetched>, ends: iset<State>)
    decreases |ms|, 1
  {
    forall min :: ServesAt(codecs, st, min, ms, ends)
  }

  ghost predicate ServesAt(codecs: Registry, st: State, min: int, ms: seq<Fetched>, ends: iset<State>)
    decreases |ms|, 0
  {
    var p := From(ms, min);
    if p == [] then exists k: nat, f :: Turns(codecs, st, min, k) == Return(Failed(ShortRead, f)) && f in ends
    else exists k: nat, t :: Turns(codecs, st, min, k) == Return(Got(p[0], t)) && Serves(codecs, t, p[1..], ends)
  }

  lemma ServesLater(codecs: Registry, st: State, t: State, min: int, ms: seq<Fetched>, all: seq<Fetched>,
                    ends: iset<State>)
    requires Turn(codecs, st, min) == Continue(t) && ServesAt(codecs, t, min, ms, ends)
             && From(all, min) == From(ms, min)
    ensures ServesAt(codecs, st, min, all, ends)
  {
    hide Turn, Serves, From;
    var p := From(ms, min);
    if p == [] {
      var k: nat, f :| Turns(codecs, t, min, k) == Return(Failed(ShortRead, f)) && f in ends;
      assert Turns(codecs, st, min, k + 1) == Return(Failed(ShortRead, f));
    } else {
      var k: nat, u :| Turns(codecs, t, min, k) == Return(Got(p[0], u)) && Serves(codecs, u, p[1..], ends);
      assert Turns(codecs, st, min, k + 1) == Return(Got(p[0], u));
    }
  }

  lemma ServesAfterTurn(codecs: Registry, st: State, t: State, ms: seq<Fetched>, ends: iset<State>)
    requires (forall min :: Turn(codecs, st, min) == Continue(t)) && Serves(codecs, t, ms, ends)
    ensures Serves(codecs, st, ms, ends)
  {
    hide Turn, ServesAt;
    forall min
      ensures ServesAt(codecs, st, min, ms, ends)
    {
      ServesLater(codecs, st, t, min, ms, ms, ends);
    }
  }

  lemma FromCons(m: Fetched, ms: seq<Fetched>, min: int)
    ensures From([m] + ms, min) == if m.offset < min then From(ms, min) else [m] + ms
  {
    assert ([m] + ms)[1..] == ms;
  }

  /** A plain message `m` in front of what is served after it. */
  lemma ServesPlain(codecs: Registry, st: State, m: Message, rest: seq<byte>, k: nat, ms: seq<Fetched>,
                    ends: iset<State>)
    requires !st.done && WellFormed(m) && Fits(8, m.offset + st.Top().base)
    requires st.Top().src == Src(Encoded(m, 0) + rest, |Encoded(m, 0)| + k)
    requires Serves(codecs, st.SetTop(Src(rest, k)), ms, ends)
    ensures Serves(codecs, st, [Expected(m, st.Top().base)] + ms, ends)
  {
    hide Turn, ServesAt, Encoded, WellFormed, Fits, From;
    var e, t := Expected(m, st.Top().base), st.SetTop(Src(rest, k));
    forall min
      ensures ServesAt(codecs, st, min, [e] + ms, ends)
    {
      PlainTurn(codecs, st, m, rest, k, min);
      FromCons(e, ms, min);
      if e.offset < min {
        ServesLater(codecs, st, t, min, ms, [e] + ms, ends);
      } else {
        ServesNow(codecs, st, t, min, e, ms, ends);
      }
    }
  }

  lemma ServesNow(codecs: Registry, st: State, t: State, min: int, m: Fetched, ms: seq<Fetched>, ends: iset<State>)
    requires Turn(codecs, st, min) == Return(Got(m, t)) && Serves(codecs, t, ms, ends)
             && From([m] + ms, min) == [m] + ms
    ensures ServesAt(codecs, st, min, [m] + ms, ends)
  {
    hide Turn, Serves, From;
    assert ([m] + ms)[1..] == ms;
    assert Turns(codecs, st, min, 1) == Return(Got(m, t));
  }

  lemma Pops(codecs: Registry, st: State)
    requires !st.done && st.Top().src.remain == 0
    ensures forall min :: Turn(codecs, st, min) == Continue(st.Pop())
  {
  }

  lemma FirstItem(codecs: Registry, items: seq<Item>, rest: seq<byte>)
    requires items != [] && AllItems(codecs, items)
    ensures var more := items[1..];
            && WellFormedItem(codecs, items[0]) && AllItems(codecs, more)
            && ItemsBytes(items) + rest == ItemBytes(items[0]) + (ItemsBytes(more) + rest)
            && |ItemsBytes(items)| == |ItemBytes(items[0])| + |ItemsBytes(more)|
  {
    hide WellFormedItem, ItemBytes;
    Assoc(ItemBytes(items[0]), ItemsBytes(items[1..]), rest);
  }

  lemma InnerFits(codecs: Registry, i: Item)
    requires i.Wrap? && WellFormedItem(codecs, i)
    ensures AllItems(codecs, i.items) && PlainFit(i.items, Base(i))
  {
  }

  /**
   Any items on the top frame of any stack, and whatever is served after them: a
   frame that is used up is left, so that wrappers nest to any depth.
   */
  lemma {:induction false} ServesItems(codecs: Registry, st: State, items: seq<Item>, tail: seq<byte>, k: nat,
                                       ms: seq<Fetched>, ends: iset<State>)
    requires !st.done && AllItems(codecs, items) && PlainFit(items, st.Top().base)
    requires st.Top().src == Src(ItemsBytes(items) + tail, |ItemsBytes(items)| + k)
    requires Serves(codecs, st.SetTop(Src(tail, k)), ms, ends)
    ensures Serves(codecs, st, Flatten(items, st.Top().base) + ms, ends)
    decreases items
  {
    hide Turn, Serves, ItemsBytes, ItemBytes, WellFormedItem, Flatten, Inside, Fits;
    var base := st.Top().base;
    if items == [] {
      NoItems(base);
      assert [] + tail == tail && [] + ms == ms;
      assert st.SetTop(st.Top().src) == st;
    } else {
      var i, more := items[0], items[1..];
      var t := st.SetTop(Src(ItemsBytes(more) + tail, |ItemsBytes(more)| + k));
      FirstItem(codecs, items, tail);
      assert t.SetTop(Src(tail, k)) == st.SetTop(Src(tail, k)) && t.Top().base == base;
      ServesItems(codecs, t, more, tail, k, ms, ends);
      FlattenFirst(items, base, ms);
      if i.One? {
        PlainBytes(codecs, i);
        ServesPlain(codecs, st, i.m, ItemsBytes(more) + tail, |ItemsBytes(more)| + k, Flatten(more, base) + ms, ends);
      } else {
        ServesWrap(codecs, st, i, ItemsBytes(more) + tail, |ItemsBytes(more)| + k, Flatten(more, base) + ms, ends);
      }
    }
  }

  /** A wrapper in front of what is served after it. */
  lemma {:induction false} ServesWrap(codecs: Registry, st: State, i: Item, tail: seq<byte>, k: nat,
                                      ms: seq<Fetched>, ends: iset<State>)
    requires !st.done && i.Wrap? && WellFormedItem(codecs, i)
    requires st.Top().src == Src(ItemBytes(i) + tail, |ItemBytes(i)| + k)
    requires Serves(codecs, st.SetTop(Src(tail, k)), ms, ends)
    ensures Serves(codecs, st, Inside(i, st.Top().base) + ms, ends)
    decreases i
  {
    hide Turn, Serves, ItemsBytes, ItemBytes, WellFormedItem, Flatten, Fits;
    var t, d := st.SetTop(Src(tail, k)), ItemsBytes(i.items);
    var u := t.(above := t.above + [Frame(Src(d, |d|), Base(i))]);
    var v := u.SetTop(Src([], 0));
    assert v.Pop() == t;
    Pops(codecs, v);
    ServesAfterTurn(codecs, v, t, ms, ends);
    InnerFits(codecs, i);
    assert d + [] == d;
    ServesItems(codecs, u, i.items, [], 0, ms, ends);
    forall min
      ensures Turn(codecs, st, min) == Continue(u)
    {
      WrapTurn(codecs, st, i, tail, k, min);
    }
    ServesAfterTurn(codecs, st, u, Inside(i, st.Top().base) + ms, ends);
  }

  lemma NoItems(base: int)
    ensures ItemsBytes([]) == [] && Flatten([], base) == []
  {
  }

  lemma FlattenFirst(items: seq<Item>, base: int, ms: seq<Fetched>)
    requires items != []
    ensures Flatten(items, base) + ms == Inside(items[0], base) + (Flatten(items[1..], base) + ms)
    ensures items[0].One? ==> Inside(items[0], base) == [Expected(items[0].m, base)]
  {
    hide Inside;
    Assoc(Inside(items[0], base), Flatten(items[1..], base), ms);
    if items[0].One? {
      OneInside(items[0], base);
    }
  }

  lemma OneInside(i: Item, base: int)
    requires i.One?
    ensures Inside(i, base) == [Expected(i.m, base)]
  {
  }

  lemma PlainBytes(codecs: Registry, i: Item)
    requires i.One? && WellFormedItem(codecs, i)
    ensures ItemBytes(i) == Encoded(i.m, 0) && WellFormed(i.m)
  {
  }

  /** The state of a reader at the start of a response that holds `items`. */
  function AtResponse(items: seq<Item>, rest: seq<byte>): State {
    State(Src(ItemsBytes(items) + rest, |ItemsBytes(items)|), false, [])
  }

  /** The end of a response that was read to its last byte. */
  function End(rest: seq<byte>): iset<State> {
    iset{State(Src(rest, 0), true, [])}
  }

  /**
   A response that holds any set of plain messages and compressed wrappers,
   followed on the connection by anything, serves exactly these messages, in
   order and at the offsets their frames give them, whatever minimum each read
   asks for; then the response is consumed to its last byte and nothing after it
   touched.
   */
  lemma Served(codecs: Registry, items: seq<Item>, rest: seq<byte>)
    requires AllItems(codecs, items)
    ensures Serves(codecs, AtResponse(items, rest), Flatten(items, 0), End(rest))
  {
    hide Serves, ItemsBytes, Flatten, WellFormedItem;
    ServesEnd(codecs, rest);
    forall j | 0 <= j < |items| && items[j].One?
      ensures Fits(8, 0 + items[j].m.offset)
    {
      OffsetFits(codecs, items[j]);
    }
    ServesItems(codecs, AtResponse(items, rest), items, rest, 0, [], End(rest));
    assert Flatten(items, 0) + [] == Flatten(items, 0);
  }

  lemma OffsetFits(codecs: Registry, i: Item)
    requires i.One? && WellFormedItem(codecs, i)
    ensures Fits(8, i.m.offset)
  {
  }

  lemma ServesEnd(codecs: Registry, rest: seq<byte>)
    ensures Serves(codecs, State(Src(rest, 0), false, []), [], End(rest))
  {
    var st := State(Src(rest, 0), false, []);
    var t := st.Pop();
    forall min
      ensures ServesAt(codecs, st, min, [], End(rest))
    {
      assert Turn(codecs, st, min) == Continue(t);
      assert Turn(codecs, t, min) == Return(Failed(ShortRead, t));
      assert Turns(codecs, t, min, 1) == Return(Failed(ShortRead, t));
      assert Turns(codecs, st, min, 2) == Return(Failed(ShortRead, t));
    }
  }

  /**
   The reads with one minimum for all of them from `st`: one message after
   another, then a short read that leaves one of `ends`.
   */
  ghost predicate Delivers(codecs: Registry, st: State, min: int, ms: seq<Fetched>, ends: iset<State>)
    decreases |ms|
  {
    if ms == [] then exists k: nat, f :: Turns(codecs, st, min, k) == Return(Failed(ShortRead, f)) && f in ends
    else exists k: nat, t ::
           Turns(codecs, st, min, k) == Return(Got(ms[0], t)) && Delivers(codecs, t, min, ms[1..], ends)
  }

  lemma {:induction false} AtLeastFrom(ms: seq<Fetched>, min: int)
    ensures var p := From(ms, min);
            AtLeast(ms, min) == if p == [] then [] else [p[0]] + AtLeast(p[1..], min)
    decreases |ms|
  {
    if ms != [] && ms[0].offset < min {
      AtLeastFrom(ms[1..], min);
    }
  }

  lemma {:induction false} ServesDelivers(codecs: Registry, st: State, min: int, ms: seq<Fetched>, ends: iset<State>)
    requires Serves(codecs, st, ms, ends)
    ensures Delivers(codecs, st, min, AtLeast(ms, min), ends)
    decreases |ms|
  {
    hide Turns, AtLeast, From;
    AtLeastFrom(ms, min);
    assert ServesAt(codecs, st, min, ms, ends);
    var p := From(ms, min);
    if p != [] {
      var k: nat, t :| Turns(codecs, st, min, k) == Return(Got(p[0], t)) && Serves(codecs, t, p[1..], ends);
      ServesDelivers(codecs, t, min, p[1..], ends);
      assert ([p[0]] + AtLeast(p[1..], min))[1..] == AtLeast(p[1..], min);
    }
  }

  /** Reading with minimum `min` throughout delivers exactly the messages at offset `min` or later. */
  lemma ReadBack(codecs: Registry, items: seq<Item>, rest: seq<byte>, min: int)
    requires AllItems(codecs, items)
    ensures Delivers(codecs, AtResponse(items, rest), min, AtLeast(Flatten(items, 0), min), End(rest))
  {
    hide Serves, Delivers, AllItems, ItemsBytes, AtLeast, Flatten;
    Served(codecs, items, rest);
    ServesDelivers(codecs, AtResponse(items, rest), min, Flatten(items, 0), End(rest));
  }

  // ---------------------------------------------------------------------
  // Wrappers inside wrappers
  // ---------------------------------------------------------------------

  /** The offsets that wrappers stand for: those of an outer wrapper shift everything in it. */
  function Meant(items: seq<Item>, base: int): seq<Fetched>
    decreases items
  {
    if items == [] then [] else MeantInside(items[0], base) + Meant(items[1..], base)
  }

  function MeantInside(i: Item, base: int): seq<Fetched>
    decreases i
  {
    if i.One? then [Expected(i.m, base)] else Meant(i.items, base + Base(i))
  }

  /** Around every wrapper with a plain message in it the bases add up to nothing. */
  ghost predicate Unshifted(items: seq<Item>, served: int, meant: int)
    decreases items
  {
    items != [] ==> UnshiftedInside(items[0], served, meant) && Unshifted(items[1..], served, meant)
  }

  ghost predicate UnshiftedInside(i: Item, served: int, meant: int)
    decreases i
  {
    if i.One? then served == meant else Unshifted(i.items, Base(i), meant + Base(i))
  }

  lemma {:induction false} MeantAlike(items: seq<Item>, served: int, meant: int)
    ensures |Flatten(items, served)| == |Meant(items, meant)|
    ensures Flatten(items, served) == Meant(items, meant) <==> Unshifted(items, served, meant)
    decreases items
  {
    if items != [] {
      hide Inside, MeantInside, UnshiftedInside;
      InsideAlike(items[0], served, meant);
      MeantAlike(items[1..], served, meant);
      SplitEqual(Inside(items[0], served), Flatten(items[1..], served), MeantInside(items[0], meant),
                 Meant(items[1..], meant));
    }
  }

  lemma {:induction false} InsideAlike(i: Item, served: int, meant: int)
    ensures |Inside(i, served)| == |MeantInside(i, meant)|
    ensures Inside(i, served) == MeantInside(i, meant) <==> UnshiftedInside(i, served, meant)
    decreases i
  {
    if i.One? {
      assert Inside(i, served)[0].offset == served + i.m.offset;
      assert MeantInside(i, meant)[0].offset == meant + i.m.offset;
    } else {
      MeantAlike(i.items, Base(i), meant + Base(i));
    }
  }

  lemma SplitEqual(a: seq<Fetched>, b: seq<Fetched>, c: seq<Fetched>, d: seq<Fetched>)
    requires |a| == |c|
    ensures a + b == c + d <==> a == c && b == d
  {
    if a + b == c + d {
      assert a == (a + b)[..|a|] == c;
      assert b == (a + b)[|a|..] == d;
    }
  }

  /**
   Wrappers nested to any depth: every message is served at the offset meant for
   it exactly when around every wrapper with a plain message in it the bases of
   the outer ones add up to zero.
   */
  lemma NestedBaseIff(codecs: Registry, items: seq<Item>, rest: seq<byte>)
    requires AllItems(codecs, items)
    ensures Serves(codecs, AtResponse(items, rest), Flatten(items, 0), End(rest))
    ensures Flatten(items, 0) == Meant(items, 0) <==> Unshifted(items, 0, 0)
  {
    hide Serves, ItemsBytes, Flatten, Meant, Unshifted, AllItems;
    Served(codecs, items, rest);
    MeantAlike(items, 0, 0);
  }

  const PLAIN := Message(0, 0, 1, 0, Nil, Bytes([1]))
  const INNER := Wrap(0, 0, 1, 0, Identity(), [One(PLAIN)])
  const OUTER := Wrap(5, 0, 1, 0, Identity(), [INNER])

  lemma SampleWellFormed()
    ensures WellFormedItem(CODECS, One(PLAIN)) && WellFormedItem(CODECS, INNER) && WellFormedItem(CODECS, OUTER)
  {
    hide BigEndian;
    Widths();
    assert Inverse(Identity());
    OneBytes(One(PLAIN));
    ScansParts(PLAIN, 0, []);
    OneBytes(INNER);
    ScansParts(AsMessage(INNER), 1, []);
  }

  lemma OneBytes(i: Item)
    ensures ItemsBytes([i]) == ItemBytes(i)
  {
    hide ItemBytes;
    assert [i][1..] == [];
    assert ItemBytes(i) + [] == ItemBytes(i);
  }

  /** One message, wrapped twice, at offset 5: it is served at offset 0. */
  lemma NestedLosesBase(rest: seq<byte>)
    ensures Serves(CODECS, AtResponse([OUTER], rest), [Fetched(0, 0, Nil, Bytes([1]))], End(rest))
    ensures Meant([OUTER], 0) == [Fetched(5, 0, Nil, Bytes([1]))]
  {
    hide Serves, Encoded, WellFormedItem, ItemsBytes, ItemBytes, Identity;
    SampleWellFormed();
    Served(CODECS, [OUTER], rest);
    assert [OUTER][1..] == [] && [INNER][1..] == [] && [One(PLAIN)][1..] == [];
    var e, f := Expected(PLAIN, 0), Expected(PLAIN, 5);
    assert Flatten([One(PLAIN)], 0) == [e] + [] == [e];
    assert Flatten([INNER], 5) == [e] + [] == [e];
    assert Flatten([OUTER], 0) == [e] + [] == [e];
    assert Meant([One(PLAIN)], 5) == [f] + [] == [f];
    assert Meant([INNER], 5) == [f] + [] == [f];
    assert Meant([OUTER], 0) == [f] + [] == [f];
  }

  // ---------------------------------------------------------------------
  // A payload that keeps the reader going for ever
  // ---------------------------------------------------------------------

  /** A wrapper with an empty payload. */
  const EMPTY := Message(0, 0, 1, 0, Nil, Bytes([]))

  /** A codec that decodes everything to such a wrapper. */
  function Looping(): Codec {
    Codec(1, b => b, _ => Some(Encoded(EMPTY, 1)))
  }

  ghost predicate Wrapped(st: State) {
    !st.done && st.Top().src == Src(Encoded(EMPTY, 1), |Encoded(EMPTY, 1)|)
  }

  lemma Descends(st: State, min: int)
    requires Wrapped(st)
    ensures var p := Turn(map[1 := Looping()], st, min);
            p.Continue? && Wrapped(p.st) && |p.st.above| == |st.above| + 1
  {
    hide Encoded, ReadHead, ReadPayload, LastOffset, Wrap64, Blob, Fits;
    var e := Encoded(EMPTY, 1);
    var x := Blob(Nil) + Blob(Bytes([]));
    EmptyFits();
    EncodedPositive(EMPTY, 1);
    assert e + [] == e && x + [] == x;
    TopHead(EMPTY, 1, [], 0);
    ReadsPayload(Bytes([]), [], 0);
    ScansOne(EMPTY, 1, [], 0, 0);
    ScansNothing(0);
  }

  lemma EmptyFits()
    ensures WellFormed(EMPTY)
  {
    Widths();
  }

  /** Such a message keeps the loop of readMessage going, deeper and deeper, for any number of passes. */
  lemma {:induction false} NeverReturns(st: State, min: int, k: nat)
    requires Wrapped(st)
    ensures var p := Turns(map[1 := Looping()], st, min, k);
            p.Continue? && Wrapped(p.st) && |p.st.above| == |st.above| + k
    decreases k
  {
    hide Turn, Wrapped, Looping;
    if k > 0 {
      Descends(st, min);
      NeverReturns(Turn(map[1 := Looping()], st, min).st, min, k - 1);
    }
  }
}
