/**
 The readers of produce and fetch responses (conn.go, read.go), and how many
 bytes of the response they leave when the broker reports an error: the
 connection stays open on such errors, so what they leave is what the next
 operation on the connection meets.
 */
module Responses {
  import opened Wire
  import Connection
  import Streams

  /** expectZeroSize. */
  function ExpectZero<T>(r: R<T>): R<T> {
    if r.Ok? && r.rest.remain != 0 then Fail(Mismatch, r.rest) else r
  }

  // ---------------------------------------------------------------------
  // Produce responses
  // ---------------------------------------------------------------------

  /** produceResponsePartitionV2: partition, error code, offset, timestamp. */
  const PARTITION: seq<nat> := [4, 2, 8, 8]

  function Partition(s: Src): (r: R<seq<int>>)
    ensures r.Ok? ==> |r.value| == 4
  {
    var (p, t) :- ReadFields(s, PARTITION);
    if p[1] != 0 then Fail(Kafka(p[1]), t) else Ok(p, t)
  }

  /** readArrayWith over partitions: n calls, of which the last successful one counts. */
  function Partitions(s: Src, n: int, last: seq<int>): R<seq<int>>
    decreases n
  {
    if n <= 0 then Ok(last, s)
    else
      var (p, t) :- Partition(s);
      Partitions(t, n - 1, p)
  }

  function Topic(s: Src, last: seq<int>): R<seq<int>> {
    var (_, t) :- DiscardSized(s, 2);
    var (n, u) :- ReadInt(t, 4);
    var (p, v) :- Partitions(u, n, last);
    var (_, w) :- DiscardN(v, 4);
    Ok(p, w)
  }

  function Topics(s: Src, n: int, last: seq<int>): R<seq<int>>
    decreases n
  {
    if n <= 0 then Ok(last, s)
    else
      var (p, t) :- Topic(s, last);
      Topics(t, n - 1, p)
  }

  /** The response to a produce request: the partition written, the offset and the append time. */
  function ReadProduce(s: Src): R<seq<int>> {
    var (n, t) :- ReadInt(s, 4);
    ExpectZero(Topics(t, n, []))
  }

  function ProduceBytes(topic: seq<byte>, p: seq<int>, throttle: int): seq<byte>
    requires |p| == 4
  {
    Int32(1) + (String(topic) + (Int32(1) + (Fields(PARTITION, p) + Int32(throttle))))
  }

  lemma DiscardsString(s: seq<byte>, rest: seq<byte>, remain: nat)
    requires |s| < 0x8000 && |s| + 2 <= remain
    ensures DiscardSized(Src(String(s) + rest, remain), 2) == Ok((), Src(rest, remain - 2 - |s|))
  {
    Widths();
    assert Fits(2, |s|);
    hide Fits, BigEndian, Signed;
    assert String(s) + rest == Int16(|s|) + (s + rest);
    ReadsInt(2, |s|, s + rest, remain);
    assert (s + rest)[|s|..] == rest;
  }

  lemma ReadsOne(rest: seq<byte>, remain: nat)
    requires 4 <= remain
    ensures ReadInt(Src(Int32(1) + rest, remain), 4) == Ok(1, Src(rest, remain - 4))
  {
    Widths();
    assert Fits(4, 1);
    hide Fits, BigEndian, Signed;
    ReadsInt(4, 1, rest, remain);
  }

  lemma PartitionWidth()
    ensures Sum(PARTITION) == 22
  {
    var tail: seq<nat> := [8, 8];
    assert PARTITION[1..][1..] == tail;
    assert Sum(tail) == 8 + Sum(tail[1..]);
  }

  lemma ReadsPartitions(p: seq<int>, rest: seq<byte>, remain: nat, last: seq<int>)
    requires AllFit(PARTITION, p) && 22 <= remain
    ensures Partitions(Src(Fields(PARTITION, p) + rest, remain), 1, last)
         == if p[1] != 0 then Fail(Kafka(p[1]), Src(rest, remain - 22)) else Ok(p, Src(rest, remain - 22))
  {
    hide Fits, BigEndian, Signed, Fields, ReadFields, Sum;
    PartitionWidth();
    ReadsFields(PARTITION, p, rest, remain);
    assert p[1] == 0 ==> Partitions(Src(rest, remain - 22), 0, p) == Ok(p, Src(rest, remain - 22));
  }

  /**
   A response to the one partition a connection writes to: without a broker
   error all of it is read; with one, the four bytes of the throttle time stay.
   */
  lemma ProduceLeftover(topic: seq<byte>, p: seq<int>, throttle: int, rest: seq<byte>)
    requires |topic| < 0x8000 && AllFit(PARTITION, p) && Fits(4, throttle)
    ensures var bytes := ProduceBytes(topic, p, throttle);
            ReadProduce(Src(bytes + rest, |bytes|)) ==
              if p[1] == 0 then Ok(p, Src(rest, 0)) else Fail(Kafka(p[1]), Src(Int32(throttle) + rest, 4))
  {
    hide Fits, BigEndian, Signed, Fields, Sum, ReadInt, Partitions, DiscardSized;
    PartitionWidth();
    FieldsLength(PARTITION, p);
    var tail := Int32(throttle) + rest;
    var b2 := Fields(PARTITION, p) + Int32(throttle);
    var b1 := String(topic) + (Int32(1) + b2);
    var n := |ProduceBytes(topic, p, throttle)|;
    Assoc(Int32(1), b1, rest);
    ReadsOne(b1 + rest, n);
    Assoc(String(topic), Int32(1) + b2, rest);
    Assoc(Int32(1), b2, rest);
    Assoc(Fields(PARTITION, p), Int32(throttle), rest);
    TopicLeftover(topic, p, tail, n - 4);
    if p[1] == 0 {
      assert tail[4..] == rest;
      assert Topics(Src(rest, 0), 0, p) == Ok(p, Src(rest, 0));
    }
  }

  lemma TopicLeftover(topic: seq<byte>, p: seq<int>, tail: seq<byte>, remain: nat)
    requires |topic| < 0x8000 && AllFit(PARTITION, p) && |tail| >= 4 && remain == 2 + |topic| + 4 + 22 + 4
    ensures Topic(Src(String(topic) + (Int32(1) + (Fields(PARTITION, p) + tail)), remain), [])
         == if p[1] == 0 then Ok(p, Src(tail[4..], 0)) else Fail(Kafka(p[1]), Src(tail, 4))
  {
    hide Fits, BigEndian, Signed, Fields, Sum, ReadInt, Partitions, DiscardSized;
    var b := Fields(PARTITION, p) + tail;
    DiscardsString(topic, Int32(1) + b, remain);
    ReadsOne(b, 30);
    ReadsPartitions(p, tail, 26, []);
  }

  // ---------------------------------------------------------------------
  // Fetch responses
  // ---------------------------------------------------------------------

  function One(s: Src): R<()> {
    var (n, t) :- ReadInt(s, 4);
    if n != 1 then Fail(Mismatch, t) else Ok((), t)
  }

  /** Throttle time, one topic, its name, one partition. */
  function FetchPrefix(s: Src): R<int> {
    var (throttle, t) :- ReadInt(s, 4);
    var (_, u) :- One(t);
    var (_, v) :- DiscardSized(u, 2);
    var (_, w) :- One(v);
    Ok(throttle, w)
  }

  datatype Fetched = Fetched(throttle: int, watermark: int)

  /** Partition, error code, high water mark, message set size. */
  const FETCH_V2: seq<nat> := [4, 2, 8, 4]

  function ReadFetchV2(s: Src): R<Fetched> {
    var (throttle, t) :- FetchPrefix(s);
    var (p, u) :- ReadFields(t, FETCH_V2);
    if p[1] != 0 then Fail(Kafka(p[1]), u)
    else if u.remain != p[3] then Fail(Mismatch, u)
    else Ok(Fetched(throttle, p[2]), u)
  }

  /** Partition, error code, high water mark, last stable offset, log start offset. */
  const FETCH_V5: seq<nat> := [4, 2, 8, 8, 8]

  /** An aborted transaction: producer id and first offset. */
  const PAIR: seq<nat> := [8, 8]

  function Aborted(s: Src, n: nat): R<()>
    decreases n
  {
    if n == 0 then Ok((), s)
    else
      var (_, t) :- ReadFields(s, PAIR);
      Aborted(t, n - 1)
  }

  function AbortedArray(s: Src): R<()> {
    var (n, t) :- ReadInt(s, 4);
    if n == -1 then Ok((), t)
    else if n < 0 then Fail(Panicked, t)
    else Aborted(t, n)
  }

  function ReadFetchV5(s: Src): R<Fetched> {
    var (throttle, t) :- FetchPrefix(s);
    var (p, u) :- ReadFields(t, FETCH_V5);
    var (_, v) :- AbortedArray(u);
    if p[1] != 0 then Fail(Kafka(p[1]), v)
    else
      var (size, w) :- ReadInt(v, 4);
      if w.remain != size then Fail(Mismatch, w) else Ok(Fetched(throttle, p[2]), w)
  }

  function PrefixBytes(throttle: int, topic: seq<byte>): seq<byte> {
    Int32(throttle) + (Int32(1) + (String(topic) + Int32(1)))
  }

  lemma ReadsPrefix(throttle: int, topic: seq<byte>, rest: seq<byte>, remain: nat)
    requires |topic| < 0x8000 && Fits(4, throttle) && 14 + |topic| <= remain
    ensures FetchPrefix(Src(PrefixBytes(throttle, topic) + rest, remain))
              == Ok(throttle, Src(rest, remain - 14 - |topic|))
  {
    hide Fits, BigEndian, Signed, ReadInt, DiscardSized;
    var b := Int32(1) + rest;
    Assoc(Int32(throttle), Int32(1) + (String(topic) + Int32(1)), rest);
    Assoc(Int32(1), String(topic) + Int32(1), rest);
    Assoc(String(topic), Int32(1), rest);
    ReadsInt(4, throttle, Int32(1) + (String(topic) + b), remain);
    ReadsOne(String(topic) + b, remain - 4);
    DiscardsString(topic, b, remain - 8);
    ReadsOne(rest, remain - 10 - |topic|);
  }

  lemma FetchWidths()
    ensures Sum(FETCH_V2) == 18 && Sum(FETCH_V5) == 30
  {
    var a: seq<nat>, b: seq<nat> := [8, 4], [8, 8, 8];
    assert FETCH_V2[1..][1..] == a && FETCH_V5[1..][1..] == b;
    assert Sum(a) == 8 + Sum(a[1..]);
    assert Sum(b) == 8 + Sum(b[1..]) && Sum(b[1..]) == 8 + Sum(b[1..][1..]);
  }

  /** The remaining size after a fetch header of format 2 is the message set, whether there was an error or not. */
  lemma FetchV2Leftover(throttle: int, topic: seq<byte>, p: seq<int>, messages: seq<byte>, rest: seq<byte>)
    requires |topic| < 0x8000 && Fits(4, throttle) && AllFit(FETCH_V2, p) && p[3] == |messages|
    ensures var head := PrefixBytes(throttle, topic) + Fields(FETCH_V2, p);
            ReadFetchV2(Src(head + (messages + rest), |head| + |messages|)) ==
              if p[1] != 0 then Fail(Kafka(p[1]), Src(messages + rest, |messages|))
              else Ok(Fetched(throttle, p[2]), Src(messages + rest, |messages|))
  {
    hide Fits, BigEndian, Signed, Fields, Sum, FetchPrefix;
    FetchWidths();
    FieldsLength(FETCH_V2, p);
    PrefixLength(throttle, topic);
    var more := messages + rest;
    Assoc(PrefixBytes(throttle, topic), Fields(FETCH_V2, p), more);
    ReadsPrefix(throttle, topic, Fields(FETCH_V2, p) + more, 14 + |topic| + 18 + |messages|);
    ReadsFields(FETCH_V2, p, more, 18 + |messages|);
  }

  lemma PrefixLength(throttle: int, topic: seq<byte>)
    ensures |PrefixBytes(throttle, topic)| == 14 + |topic|
  {
  }

  lemma FitsInt32(n: int)
    requires -0x8000_0000 <= n < 0x8000_0000
    ensures Fits(4, n)
  {
    Widths();
  }

  ghost predicate PairsFit(pairs: seq<seq<int>>) {
    forall i :: 0 <= i < |pairs| ==> AllFit(PAIR, pairs[i])
  }

  function Pairs(pairs: seq<seq<int>>): seq<byte>
    requires forall i :: 0 <= i < |pairs| ==> |pairs[i]| == 2
  {
    if pairs == [] then [] else Fields(PAIR, pairs[0]) + Pairs(pairs[1..])
  }

  /** A list of aborted transactions; none is the null array. */
  function AbortedBytes(pairs: seq<seq<int>>): seq<byte>
    requires forall i :: 0 <= i < |pairs| ==> |pairs[i]| == 2
  {
    Int32(if pairs == [] then -1 else |pairs|) + Pairs(pairs)
  }

  lemma {:induction false} ReadsPairs(pairs: seq<seq<int>>, rest: seq<byte>, remain: nat)
    requires PairsFit(pairs) && 16 * |pairs| <= remain
    ensures |Pairs(pairs)| == 16 * |pairs|
    ensures Aborted(Src(Pairs(pairs) + rest, remain), |pairs|) == Ok((), Src(rest, remain - 16 * |pairs|))
    decreases |pairs|
  {
    hide Fits, BigEndian, Signed, Fields, Sum, ReadFields;
    if pairs == [] {
      assert Pairs(pairs) + rest == rest;
    } else {
      PairWidth(pairs[0]);
      Assoc(Fields(PAIR, pairs[0]), Pairs(pairs[1..]), rest);
      ReadsFields(PAIR, pairs[0], Pairs(pairs[1..]) + rest, remain);
      ReadsPairs(pairs[1..], rest, remain - 16);
    }
  }

  lemma PairWidth(pair: seq<int>)
    requires |pair| == 2
    ensures Sum(PAIR) == 16 && |Fields(PAIR, pair)| == 16
  {
    hide BigEndian;
    FieldsLength(PAIR, pair);
    assert Sum(PAIR[1..]) == 8 + Sum(PAIR[1..][1..]);
  }

  lemma ReadsAborted(pairs: seq<seq<int>>, rest: seq<byte>, remain: nat)
    requires PairsFit(pairs) && |pairs| < 0x8000_0000 && 4 + 16 * |pairs| <= remain
    ensures |AbortedBytes(pairs)| == 4 + 16 * |pairs|
    ensures AbortedArray(Src(AbortedBytes(pairs) + rest, remain)) == Ok((), Src(rest, remain - 4 - 16 * |pairs|))
  {
    hide Fits, BigEndian, Signed, Fields, Sum, ReadInt;
    var n := if pairs == [] then -1 else |pairs|;
    FitsInt32(n);
    Assoc(Int32(n), Pairs(pairs), rest);
    ReadsInt(4, n, Pairs(pairs) + rest, remain);
    ReadsPairs(pairs, rest, remain - 4);
    assert pairs == [] ==> Pairs(pairs) + rest == rest;
  }

  /** An empty list may also be sent as such; a count below -1 is more than make accepts. */
  lemma AbortedCounts(n: int, rest: seq<byte>, remain: nat)
    requires Fits(4, n) && n <= 0 && 4 <= remain
    ensures AbortedArray(Src(Int32(n) + rest, remain))
         == if n >= -1 then Ok((), Src(rest, remain - 4)) else Fail(Panicked, Src(rest, remain - 4))
  {
    hide Fits, BigEndian, Signed, ReadInt;
    ReadsInt(4, n, rest, remain);
  }

  /** With a header of format 5, a broker error leaves the size of the message set too: never nothing. */
  lemma FetchV5Leftover(throttle: int, topic: seq<byte>, p: seq<int>, pairs: seq<seq<int>>,
                        messages: seq<byte>, rest: seq<byte>)
    requires |topic| < 0x8000 && Fits(4, throttle) && AllFit(FETCH_V5, p) && |messages| < 0x8000_0000
    requires PairsFit(pairs) && |pairs| < 0x8000_0000
    ensures var head := PrefixBytes(throttle, topic) + (Fields(FETCH_V5, p) + AbortedBytes(pairs));
            ReadFetchV5(Src(head + (Int32(|messages|) + (messages + rest)), |head| + 4 + |messages|)) ==
              if p[1] != 0 then Fail(Kafka(p[1]), Src(Int32(|messages|) + (messages + rest), 4 + |messages|))
              else Ok(Fetched(throttle, p[2]), Src(messages + rest, |messages|))
  {
    hide Fits, BigEndian, Signed, Fields, Sum, FetchPrefix, ReadFields, ReadInt, AbortedBytes, AbortedArray;
    FitsInt32(|messages|);
    FetchWidths();
    FieldsLength(FETCH_V5, p);
    PrefixLength(throttle, topic);
    var list, more := AbortedBytes(pairs), Int32(|messages|) + (messages + rest);
    var n := 4 + 16 * |pairs| + 4 + |messages|;
    Assoc(PrefixBytes(throttle, topic), Fields(FETCH_V5, p) + list, more);
    Assoc(Fields(FETCH_V5, p), list, more);
    ReadsPrefix(throttle, topic, Fields(FETCH_V5, p) + (list + more), 14 + |topic| + 30 + n);
    ReadsFields(FETCH_V5, p, list + more, 30 + n);
    ReadsAborted(pairs, more, n);
    ReadsInt(4, |messages|, messages + rest, 4 + |messages|);
  }

  // ---------------------------------------------------------------------
  // On arbitrary bytes
  // ---------------------------------------------------------------------

  lemma PartitionConserves(s: Src)
    ensures Tail(s, Partition(s).rest)
  {
    hide ReadFields, Tail;
    ReadFieldsConserves(s, PARTITION);
  }

  lemma {:induction false} PartitionsConserve(s: Src, n: int, last: seq<int>)
    ensures Tail(s, Partitions(s, n, last).rest)
    decreases n
  {
    hide Partition, Tail;
    TailSteps(s);
    if n > 0 {
      PartitionConserves(s);
      var r := Partition(s);
      if r.Ok? {
        PartitionsConserve(r.rest, n - 1, r.value);
      }
    }
  }

  lemma TopicConserves(s: Src, last: seq<int>)
    ensures Tail(s, Topic(s, last).rest)
  {
    hide DiscardSized, ReadInt, Partitions, Wire.DiscardN, Tail;
    TailSteps(s);
    SizedConserve(s, 2);
    var name := DiscardSized(s, 2);
    if name.Ok? {
      ReadIntConserves(name.rest, 4);
      var n := ReadInt(name.rest, 4);
      if n.Ok? {
        TailTransitive(s, name.rest, n.rest);
        PartitionsConserve(n.rest, n.value, last);
        var p := Partitions(n.rest, n.value, last);
        if p.Ok? {
          TailTransitive(s, n.rest, p.rest);
          DiscardNConserves(p.rest, 4);
        }
      }
    }
  }

  lemma {:induction false} TopicsConserve(s: Src, n: int, last: seq<int>)
    ensures Tail(s, Topics(s, n, last).rest)
    decreases n
  {
    hide Topic, Tail;
    TailSteps(s);
    if n > 0 {
      TopicConserves(s, last);
      var r := Topic(s, last);
      if r.Ok? {
        TopicsConserve(r.rest, n - 1, r.value);
      }
    }
  }

  /** Whatever the broker sends, the reader of a produce response stays within the frame. */
  lemma ReadProduceConserves(s: Src)
    ensures Tail(s, ReadProduce(s).rest)
  {
    hide ReadInt, Topics, Tail;
    TailSteps(s);
    ReadIntConserves(s, 4);
    var n := ReadInt(s, 4);
    if n.Ok? {
      TopicsConserve(n.rest, n.value, []);
    }
  }

  lemma OneConserves(s: Src)
    ensures Tail(s, One(s).rest)
  {
    hide Tail, ReadInt;
    ReadIntConserves(s, 4);
  }

  lemma FetchPrefixConserves(s: Src)
    ensures Tail(s, FetchPrefix(s).rest)
  {
    hide ReadInt, One, DiscardSized, Tail;
    TailSteps(s);
    ReadIntConserves(s, 4);
    var throttle := ReadInt(s, 4);
    if throttle.Ok? {
      OneConserves(throttle.rest);
      var topics := One(throttle.rest);
      if topics.Ok? {
        TailTransitive(s, throttle.rest, topics.rest);
        SizedConserve(topics.rest, 2);
        var name := DiscardSized(topics.rest, 2);
        if name.Ok? {
          TailTransitive(s, topics.rest, name.rest);
          OneConserves(name.rest);
        }
      }
    }
  }

  lemma ReadFetchV2Conserves(s: Src)
    ensures Tail(s, ReadFetchV2(s).rest)
  {
    hide FetchPrefix, ReadFields, Tail;
    TailSteps(s);
    FetchPrefixConserves(s);
    var prefix := FetchPrefix(s);
    if prefix.Ok? {
      ReadFieldsConserves(prefix.rest, FETCH_V2);
    }
  }

  lemma {:induction false} AbortedConserves(s: Src, n: nat)
    ensures Tail(s, Aborted(s, n).rest)
    decreases n
  {
    hide ReadFields, Tail;
    TailSteps(s);
    if n > 0 {
      ReadFieldsConserves(s, PAIR);
      var r := ReadFields(s, PAIR);
      if r.Ok? {
        AbortedConserves(r.rest, n - 1);
      }
    }
  }

  lemma AbortedArrayConserves(s: Src)
    ensures Tail(s, AbortedArray(s).rest)
  {
    hide ReadInt, Aborted, Tail;
    TailSteps(s);
    ReadIntConserves(s, 4);
    var n := ReadInt(s, 4);
    if n.Ok? && n.value >= 0 {
      AbortedConserves(n.rest, n.value);
    }
  }

  lemma ReadFetchV5Conserves(s: Src)
    ensures Tail(s, ReadFetchV5(s).rest)
  {
    hide FetchPrefix, ReadFields, AbortedArray, ReadInt, Tail;
    TailSteps(s);
    FetchPrefixConserves(s);
    var prefix := FetchPrefix(s);
    if prefix.Ok? {
      ReadFieldsConserves(prefix.rest, FETCH_V5);
      var p := ReadFields(prefix.rest, FETCH_V5);
      if p.Ok? {
        TailTransitive(s, prefix.rest, p.rest);
        AbortedArrayConserves(p.rest);
        var list := AbortedArray(p.rest);
        if list.Ok? {
          TailTransitive(s, p.rest, list.rest);
          ReadIntConserves(list.rest, 4);
        }
      }
    }
  }

  /** On a connection, reading any of these responses from arbitrary bytes is a step the multiplexer allows. */
  lemma ResponsesConsume(s: Connection.State, k: nat)
    requires Connection.HoldsLock(s, k)
    ensures var src := Src(s.arrived, s.ops[k].phase.remain);
            && Connection.IsConsume(s, k, ReadProduce(src).rest)
            && Connection.IsConsume(s, k, ReadFetchV2(src).rest)
            && Connection.IsConsume(s, k, ReadFetchV5(src).rest)
  {
    hide ReadProduce, ReadFetchV2, ReadFetchV5, Connection.IsConsume, Tail;
    var src := Src(s.arrived, s.ops[k].phase.remain);
    ReadProduceConserves(src);
    Connection.ReaderConsumes(s, k, ReadProduce(src).rest);
    ReadFetchV2Conserves(src);
    Connection.ReaderConsumes(s, k, ReadFetchV2(src).rest);
    ReadFetchV5Conserves(src);
    Connection.ReaderConsumes(s, k, ReadFetchV5(src).rest);
  }

  /**
   A whole run: a produce request is answered with an error, its operation ends,
   and the next operation on the connection, answered too, never gets its answer.
   */
  lemma ProduceErrorStalls(topic: seq<byte>, p: seq<int>, throttle: int, answer: seq<byte>)
    requires |topic| < 0x8000 && AllFit(PARTITION, p) && p[1] != 0 && -0x8000_0000 <= throttle < 0x8000_0000
    requires |answer| + 4 < 0x8000_0000
    ensures var bytes := ProduceBytes(topic, p, throttle);
            var n := |bytes| - ReadProduce(Src(bytes + Connection.Frame(2, answer), |bytes|)).rest.remain;
            0 <= n && Connection.Stalls(bytes, answer, n)
  {
    hide BigEndian, Fields, Sum, ReadProduce, Connection.Stalls, Connection.Frame;
    FitsInt32(throttle);
    ProduceLeftover(topic, p, throttle, Connection.Frame(2, answer));
    ProduceSplits(topic, p, throttle);
    var bytes := ProduceBytes(topic, p, throttle);
    Connection.SecondPolls(bytes[..|bytes| - 4], throttle, answer);
  }

  /** A fetch response of version 5 without messages. */
  function FetchBytes(throttle: int, topic: seq<byte>, p: seq<int>, pairs: seq<seq<int>>): seq<byte>
    requires |p| == |FETCH_V5| && forall i :: 0 <= i < |pairs| ==> |pairs[i]| == 2
  {
    PrefixBytes(throttle, topic) + (Fields(FETCH_V5, p) + AbortedBytes(pairs)) + Int32(0)
  }

  /** The same for a fetch of version 5: the size of the message set is left, and the next operation stalls. */
  lemma FetchErrorStalls(throttle: int, topic: seq<byte>, p: seq<int>, pairs: seq<seq<int>>, answer: seq<byte>)
    requires |topic| < 0x8000 && Fits(4, throttle) && AllFit(FETCH_V5, p) && p[1] != 0
    requires PairsFit(pairs) && |FetchBytes(throttle, topic, p, pairs)| < 0x7fff_0000 && |pairs| < 0x8000_0000
    requires |answer| + 4 < 0x8000_0000
    ensures var bytes := FetchBytes(throttle, topic, p, pairs);
            var n := |bytes| - ReadFetchV5(Src(bytes + Connection.Frame(2, answer), |bytes|)).rest.remain;
            0 <= n && Connection.Stalls(bytes, answer, n)
  {
    hide BigEndian, Fields, Sum, ReadFetchV5, Connection.Stalls, Connection.Frame, PrefixBytes, AbortedBytes, Fits;
    var head := PrefixBytes(throttle, topic) + (Fields(FETCH_V5, p) + AbortedBytes(pairs));
    var rest := Connection.Frame(2, answer);
    FetchV5Leftover(throttle, topic, p, pairs, [], rest);
    assert [] + rest == rest;
    Assoc(head, Int32(0), rest);
    Connection.SecondPolls(head, 0, answer);
  }

  lemma ProduceSplits(topic: seq<byte>, p: seq<int>, throttle: int)
    requires |topic| < 0x8000 && |p| == 4
    ensures var bytes := ProduceBytes(topic, p, throttle);
            4 <= |bytes| < 0x1_0000 && bytes == bytes[..|bytes| - 4] + Int32(throttle)
  {
    hide BigEndian, Fields, Sum;
    FieldsLength(PARTITION, p);
    PartitionWidth();
    var bytes := ProduceBytes(topic, p, throttle);
    assert bytes[|bytes| - 4..] == Int32(throttle);
  }

  // ---------------------------------------------------------------------
  // The readers as operations on a buffered reader
  // ---------------------------------------------------------------------

  method ReadPartitionFrom(r: Streams.Reader, sz: nat) returns (p: seq<int>, remain: nat, err: Err)
    modifies r
    ensures Streams.Finishes(Partition(old(r.At(sz))), r.At(remain), err)
    ensures err == NoError ==> p == Partition(old(r.At(sz))).value
  {
    hide ReadFields;
    p, remain, err := Streams.ReadFields(r, sz, PARTITION);
    if err == NoError && p[1] != 0 {
      err := Kafka(p[1]);
    }
  }

  method ReadTopicFrom(r: Streams.Reader, sz: nat, before: seq<int>) returns (last: seq<int>, remain: nat, err: Err)
    modifies r
    ensures Streams.Finishes(Topic(old(r.At(sz)), before), r.At(remain), err)
    ensures err == NoError ==> last == Topic(old(r.At(sz)), before).value
  {
    hide Partition, Partitions, DiscardSized, ReadInt, Signed, Wire.DiscardN;
    last := before;
    remain, err := Streams.DiscardSized(r, sz, 2);
    if err != NoError {
      return;
    }
    var n;
    n, remain, err := Streams.ReadInt(r, remain, 4);
    if err != NoError {
      return;
    }
    last, remain, err := ReadPartitionsFrom(r, remain, n, before);
    if err == NoError {
      remain, err := Streams.DiscardN(r, remain, 4);
    }
  }

  method ReadPartitionsFrom(r: Streams.Reader, sz: nat, count: int, before: seq<int>)
    returns (last: seq<int>, remain: nat, err: Err)
    modifies r
    ensures Streams.Finishes(Partitions(old(r.At(sz)), count, before), r.At(remain), err)
    ensures err == NoError ==> last == Partitions(old(r.At(sz)), count, before).value
  {
    hide Partition;
    last, remain, err := before, sz, NoError;
    var n := count;
    while n > 0
      invariant err == NoError
      invariant Partitions(old(r.At(sz)), count, before) == Partitions(r.At(remain), n, last)
      decreases n
    {
      var p;
      p, remain, err := ReadPartitionFrom(r, remain);
      if err != NoError {
        return;
      }
      last, n := p, n - 1;
    }
  }

  /** The reader given to writeOperation by writeCompressedMessages. */
  method ReadProduceFrom(r: Streams.Reader, sz: nat) returns (last: seq<int>, remain: nat, err: Err)
    modifies r
    ensures Streams.Finishes(ReadProduce(old(r.At(sz))), r.At(remain), err)
    ensures err == NoError ==> last == ReadProduce(old(r.At(sz))).value
  {
    hide Topic, ReadInt, Signed;
    last := [];
    var n;
    n, remain, err := Streams.ReadInt(r, sz, 4);
    if err != NoError {
      return;
    }
    ghost var all := Topics(r.At(remain), n, []);
    while n > 0
      invariant err == NoError && all == Topics(r.At(remain), n, last)
      decreases n
    {
      var p;
      p, remain, err := ReadTopicFrom(r, remain, last);
      if err != NoError {
        return;
      }
      last, n := p, n - 1;
    }
    if remain != 0 {
      err := Mismatch;
    }
  }

  method ReadOneFrom(r: Streams.Reader, sz: nat) returns (remain: nat, err: Err)
    modifies r
    ensures Streams.Finishes(One(old(r.At(sz))), r.At(remain), err)
  {
    hide Signed;
    var n;
    n, remain, err := Streams.ReadInt(r, sz, 4);
    if err == NoError && n != 1 {
      err := Mismatch;
    }
  }

  method ReadFetchPrefixFrom(r: Streams.Reader, sz: nat) returns (throttle: int, remain: nat, err: Err)
    modifies r
    ensures Streams.Finishes(FetchPrefix(old(r.At(sz))), r.At(remain), err)
    ensures err == NoError ==> throttle == FetchPrefix(old(r.At(sz))).value
  {
    hide One, ReadInt, DiscardSized, Signed;
    throttle, remain, err := Streams.ReadInt(r, sz, 4);
    if err == NoError {
      remain, err := ReadOneFrom(r, remain);
    }
    if err == NoError {
      remain, err := Streams.DiscardSized(r, remain, 2);
    }
    if err == NoError {
      remain, err := ReadOneFrom(r, remain);
    }
  }

  method ReadFetchV2From(r: Streams.Reader, sz: nat) returns (f: Fetched, remain: nat, err: Err)
    modifies r
    ensures Streams.Finishes(ReadFetchV2(old(r.At(sz))), r.At(remain), err)
    ensures err == NoError ==> f == ReadFetchV2(old(r.At(sz))).value
  {
    hide FetchPrefix, ReadFields;
    f := Fetched(0, 0);
    var throttle;
    throttle, remain, err := ReadFetchPrefixFrom(r, sz);
    if err != NoError {
      return;
    }
    var p;
    p, remain, err := Streams.ReadFields(r, remain, FETCH_V2);
    if err != NoError {
      return;
    }
    if p[1] != 0 {
      err := Kafka(p[1]);
    } else if remain != p[3] {
      err := Mismatch;
    } else {
      f := Fetched(throttle, p[2]);
    }
  }

  method ReadAbortedFrom(r: Streams.Reader, sz: nat) returns (remain: nat, err: Err)
    modifies r
    ensures Streams.Finishes(AbortedArray(old(r.At(sz))), r.At(remain), err)
  {
    hide ReadFields, ReadInt, Signed;
    var n;
    n, remain, err := Streams.ReadInt(r, sz, 4);
    if err != NoError || n == -1 {
      return;
    }
    if n < 0 {
      err := Panicked;
      return;
    }
    ghost var all := Aborted(r.At(remain), n);
    var i := 0;
    while i < n
      invariant 0 <= i <= n && err == NoError && all == Aborted(r.At(remain), n - i)
    {
      var pair;
      pair, remain, err := Streams.ReadFields(r, remain, PAIR);
      if err != NoError {
        return;
      }
      i := i + 1;
    }
  }

  method ReadFetchV5From(r: Streams.Reader, sz: nat) returns (f: Fetched, remain: nat, err: Err)
    modifies r
    ensures Streams.Finishes(ReadFetchV5(old(r.At(sz))), r.At(remain), err)
    ensures err == NoError ==> f == ReadFetchV5(old(r.At(sz))).value
  {
    hide FetchPrefix, ReadFields, AbortedArray, ReadInt, Signed;
    f := Fetched(0, 0);
    var throttle, p, size;
    throttle, remain, err := ReadFetchPrefixFrom(r, sz);
    if err != NoError {
      return;
    }
    p, remain, err := Streams.ReadFields(r, remain, FETCH_V5);
    if err != NoError {
      return;
    }
    remain, err := ReadAbortedFrom(r, remain);
    if err != NoError {
      return;
    }
    if p[1] != 0 {
      err := Kafka(p[1]);
      return;
    }
    size, remain, err := Streams.ReadInt(r, remain, 4);
    if err != NoError {
      return;
    }
    if remain != size {
      err := Mismatch;
    } else {
      f := Fetched(throttle, p[2]);
    }
  }
}
