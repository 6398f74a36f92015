/**
 What travels through the coordinator when a group rebalances: the metadata a
 member sends when it joins (joingroup.go) and the assignment the leader sends
 back to it (syncgroup.go, reader.go).
 */
module Assignment {
  import opened Collections
  import opened Wire
  import opened GroupBalancer
  import Streams

  // ---------------------------------------------------------------------
  // Arrays
  // ---------------------------------------------------------------------

  function Ints(a: seq<int>): seq<byte> {
    if a == [] then [] else Int32(a[0]) + Ints(a[1..])
  }

  /** writeInt32Array. */
  function Int32Array(a: seq<int>): seq<byte> {
    Int32(|a|) + Ints(a)
  }

  function Strings(a: seq<Str>): seq<byte> {
    if a == [] then [] else String(a[0]) + Strings(a[1..])
  }

  function ReadInts(s: Src, n: nat): R<seq<int>>
    decreases n
  {
    if n == 0 then Ok([], s)
    else
      var (v, t) :- ReadInt(s, 4);
      var (vs, u) :- ReadInts(t, n - 1);
      Ok([v] + vs, u)
  }

  /** readArrayWith over readInt32: a negative count reads as an empty array. */
  function ReadInt32Array(s: Src): R<seq<int>> {
    var (n, t) :- ReadInt(s, 4);
    if n <= 0 then Ok([], t) else ReadInts(t, n)
  }

  function ReadStrings(s: Src, n: nat): R<seq<Str>>
    decreases n
  {
    if n == 0 then Ok([], s)
    else
      var (v, t) :- ReadString(s);
      var (vs, u) :- ReadStrings(t, n - 1);
      Ok([v] + vs, u)
  }

  function ReadStringArray(s: Src): R<seq<Str>> {
    var (n, t) :- ReadInt(s, 4);
    if n <= 0 then Ok([], t) else ReadStrings(t, n)
  }

  // ---------------------------------------------------------------------
  // groupAssignment and groupMetadata
  // ---------------------------------------------------------------------

  datatype GroupAssignment = GroupAssignment(version: int, topics: map<Str, seq<int>>, userData: Slice)

  datatype GroupMetadata = GroupMetadata(version: int, topics: seq<Str>, userData: Slice)

  ghost predicate Within(order: seq<Str>, topics: map<Str, seq<int>>) {
    forall t :: t in order ==> t in topics
  }

  function Entries(order: seq<Str>, topics: map<Str, seq<int>>): seq<byte>
    requires Within(order, topics)
  {
    if order == [] then [] else String(order[0]) + Int32Array(topics[order[0]]) + Entries(order[1..], topics)
  }

  /** `order` is one of the orders in which the map can be traversed. */
  ghost predicate Traverses(order: seq<Str>, topics: map<Str, seq<int>>) {
    && Distinct(order) && Within(order, topics)
    && (forall t :: t in topics ==> t in order)
    && |order| == |topics|
  }

  function AssignmentBytes(a: GroupAssignment, order: seq<Str>): seq<byte>
    requires Within(order, a.topics)
  {
    Int16(a.version) + Int32(|order|) + (Entries(order, a.topics) + Blob(a.userData))
  }

  function MetadataBytes(m: GroupMetadata): seq<byte> {
    Int16(m.version) + Int32(|m.topics|) + (Strings(m.topics) + Blob(m.userData))
  }

  /** The loop of readMapStringInt32. */
  function ReadEntries(s: Src, n: nat, acc: map<Str, seq<int>>): R<map<Str, seq<int>>>
    decreases n
  {
    if n == 0 then Ok(acc, s)
    else
      var (key, t) :- ReadString(s);
      var (values, u) :- ReadInt32Array(t);
      ReadEntries(u, n - 1, acc[key := values])
  }

  function ReadMap(s: Src): R<map<Str, seq<int>>> {
    var (n, t) :- ReadInt(s, 4);
    if n <= 0 then Ok(map[], t) else ReadEntries(t, n, map[])
  }

  /** groupAssignment.readFrom; an empty payload reads as an empty assignment. */
  function ReadAssignment(s: Src): R<GroupAssignment> {
    if s.remain == 0 then Ok(GroupAssignment(0, map[], Nil), s)
    else
      var (version, t) :- ReadInt(s, 2);
      var (topics, u) :- ReadMap(t);
      var (userData, v) :- ReadBytes(u);
      Ok(GroupAssignment(version, topics, userData), v)
  }

  function ReadMetadata(s: Src): R<GroupMetadata> {
    var (version, t) :- ReadInt(s, 2);
    var (topics, u) :- ReadStringArray(t);
    var (userData, v) :- ReadBytes(u);
    Ok(GroupMetadata(version, topics, userData), v)
  }

  // ---------------------------------------------------------------------
  // On arbitrary bytes
  // ---------------------------------------------------------------------

  lemma {:induction false} ReadIntsConserves(s: Src, n: nat)
    ensures Tail(s, ReadInts(s, n).rest)
    decreases n
  {
    hide ReadInt, Tail;
    TailSteps(s);
    if n > 0 {
      ReadIntConserves(s, 4);
      var r := ReadInt(s, 4);
      if r.Ok? {
        ReadIntsConserves(r.rest, n - 1);
      }
    }
  }

  /** readArrayWith accounts for every byte, whatever count it reads. */
  lemma ReadInt32ArrayConserves(s: Src)
    ensures Tail(s, ReadInt32Array(s).rest)
  {
    hide ReadInt, ReadInts, Tail;
    TailSteps(s);
    ReadIntConserves(s, 4);
    var r := ReadInt(s, 4);
    if r.Ok? && r.value > 0 {
      ReadIntsConserves(r.rest, r.value);
    }
  }

  lemma {:induction false} ReadStringsConserves(s: Src, n: nat)
    ensures Tail(s, ReadStrings(s, n).rest)
    decreases n
  {
    hide ReadString, Tail;
    TailSteps(s);
    if n > 0 {
      SizedConserve(s, 2);
      var r := ReadString(s);
      if r.Ok? {
        ReadStringsConserves(r.rest, n - 1);
      }
    }
  }

  lemma ReadStringArrayConserves(s: Src)
    ensures Tail(s, ReadStringArray(s).rest)
  {
    hide ReadInt, ReadStrings, Tail;
    TailSteps(s);
    ReadIntConserves(s, 4);
    var r := ReadInt(s, 4);
    if r.Ok? && r.value > 0 {
      ReadStringsConserves(r.rest, r.value);
    }
  }

  lemma {:induction false} ReadEntriesConserves(s: Src, n: nat, acc: map<Str, seq<int>>)
    ensures Tail(s, ReadEntries(s, n, acc).rest)
    decreases n
  {
    hide ReadString, ReadInt32Array, Tail;
    TailSteps(s);
    if n > 0 {
      SizedConserve(s, 2);
      var key := ReadString(s);
      if key.Ok? {
        ReadInt32ArrayConserves(key.rest);
        var values := ReadInt32Array(key.rest);
        if values.Ok? {
          TailTransitive(s, key.rest, values.rest);
          ReadEntriesConserves(values.rest, n - 1, acc[key.value := values.value]);
        }
      }
    }
  }

  lemma ReadMapConserves(s: Src)
    ensures Tail(s, ReadMap(s).rest)
  {
    hide ReadInt, ReadEntries, Tail;
    TailSteps(s);
    ReadIntConserves(s, 4);
    var r := ReadInt(s, 4);
    if r.Ok? && r.value > 0 {
      ReadEntriesConserves(r.rest, r.value, map[]);
    }
  }

  /** A payload is empty, and then assigns nothing, or holds at least its version and the lengths of its parts. */
  lemma ReadAssignmentNeeds(s: Src)
    requires ReadAssignment(s).Ok?
    ensures var a, rest := ReadAssignment(s).value, ReadAssignment(s).rest;
            if s.remain == 0 then a == GroupAssignment(0, map[], Nil) && rest == s else rest.remain + 10 <= s.remain
  {
    hide ReadEntries, ReadNewBytes;
    if s.remain != 0 {
      var version := ReadInt(s, 2);
      var topics := ReadMap(version.rest);
      var count := ReadInt(version.rest, 4);
      if count.value > 0 {
        ReadEntriesConserves(count.rest, count.value, map[]);
      }
      var length := ReadLength(topics.rest, 4);
      ReadNewBytesConserves(length.rest, length.value);
    }
  }

  lemma ReadAssignmentConserves(s: Src)
    ensures Tail(s, ReadAssignment(s).rest)
  {
    hide ReadInt, ReadMap, ReadBytes, Tail;
    TailSteps(s);
    ReadIntConserves(s, 2);
    var version := ReadInt(s, 2);
    if version.Ok? {
      ReadMapConserves(version.rest);
      var topics := ReadMap(version.rest);
      if topics.Ok? {
        TailTransitive(s, version.rest, topics.rest);
        SizedConserve(topics.rest, 4);
      }
    }
  }

  lemma ReadMetadataConserves(s: Src)
    ensures Tail(s, ReadMetadata(s).rest)
  {
    hide ReadInt, ReadStringArray, ReadBytes, Tail;
    TailSteps(s);
    ReadIntConserves(s, 2);
    var version := ReadInt(s, 2);
    if version.Ok? {
      ReadStringArrayConserves(version.rest);
      var topics := ReadStringArray(version.rest);
      if topics.Ok? {
        TailTransitive(s, version.rest, topics.rest);
        SizedConserve(topics.rest, 4);
      }
    }
  }

  // ---------------------------------------------------------------------
  // Round trips
  // ---------------------------------------------------------------------

  ghost predicate AllInt32(a: seq<int>) {
    |a| < 0x8000_0000 && forall i :: 0 <= i < |a| ==> Fits(4, a[i])
  }

  lemma Int32Fits(n: int)
    requires -0x8000_0000 <= n < 0x8000_0000
    ensures Fits(4, n)
  {
    Widths();
  }

  lemma Int16Fits(n: int)
    requires -0x8000 <= n < 0x8000
    ensures Fits(2, n)
  {
    Widths();
  }

  lemma {:induction false} ReadsInts(a: seq<int>, rest: seq<byte>, k: nat)
    requires forall i :: 0 <= i < |a| ==> Fits(4, a[i])
    ensures ReadInts(Src(Ints(a) + rest, |Ints(a)| + k), |a|) == Ok(a, Src(rest, k))
  {
    hide Fits, ReadInt, BigEndian;
    if a == [] {
      assert Ints(a) + rest == rest;
    } else {
      var more := Ints(a[1..]);
      Assoc(Int32(a[0]), more, rest);
      ReadsInt(4, a[0], more + rest, 4 + |more| + k);
      ReadsInts(a[1..], rest, k);
      assert a == [a[0]] + a[1..];
    }
  }

  lemma ReadsInt32Array(a: seq<int>, rest: seq<byte>, k: nat)
    requires AllInt32(a)
    ensures ReadInt32Array(Src(Int32Array(a) + rest, |Int32Array(a)| + k)) == Ok(a, Src(rest, k))
  {
    hide Fits, ReadInt, BigEndian, Ints, ReadInts;
    Int32Fits(|a|);
    Assoc(Int32(|a|), Ints(a), rest);
    ReadsInt(4, |a|, Ints(a) + rest, 4 + |Ints(a)| + k);
    ReadsInts(a, rest, k);
    if a == [] {
      NoInts(rest);
    }
  }

  lemma NoInts(rest: seq<byte>)
    ensures Ints([]) == [] && Ints([]) + rest == rest
  {
  }

  lemma {:induction false} ReadsStrings(a: seq<Str>, rest: seq<byte>, k: nat)
    requires forall i :: 0 <= i < |a| ==> |a[i]| < 0x8000
    ensures ReadStrings(Src(Strings(a) + rest, |Strings(a)| + k), |a|) == Ok(a, Src(rest, k))
  {
    hide ReadString, BigEndian;
    if a == [] {
      assert Strings(a) + rest == rest;
    } else {
      var more := Strings(a[1..]);
      Assoc(String(a[0]), more, rest);
      ReadsString(a[0], more + rest, |String(a[0])| + |more| + k);
      ReadsStrings(a[1..], rest, k);
      assert a == [a[0]] + a[1..];
    }
  }

  /** The topics a member announces are the topics the leader sees. */
  lemma MetadataRoundTrip(m: GroupMetadata, rest: seq<byte>, k: nat)
    requires Fits(2, m.version) && |m.topics| < 0x8000_0000 && m.userData.Len() < 0x8000_0000
    requires forall i :: 0 <= i < |m.topics| ==> |m.topics[i]| < 0x8000
    ensures ReadMetadata(Src(MetadataBytes(m) + rest, |MetadataBytes(m)| + k))
         == Ok(m.(userData := m.userData.Normal()), Src(rest, k))
  {
    hide Fits, ReadInt, BigEndian, ReadBytes, Strings, ReadStrings, Blob;
    var x, y := Strings(m.topics), Blob(m.userData);
    Int32Fits(|m.topics|);
    BlobLength(m.userData);
    Assoc(Int16(m.version) + Int32(|m.topics|), x + y, rest);
    Assoc(Int16(m.version), Int32(|m.topics|), x + y + rest);
    Assoc(x, y, rest);
    ReadsInt(2, m.version, Int32(|m.topics|) + (x + (y + rest)), 6 + |x| + |y| + k);
    ReadsInt(4, |m.topics|, x + (y + rest), 4 + |x| + |y| + k);
    ReadsStrings(m.topics, y + rest, |y| + k);
    ReadsBytes(m.userData, rest, |y| + k);
    if m.topics == [] {
      NoStrings(y + rest);
    }
  }

  lemma NoStrings(rest: seq<byte>)
    ensures Strings([]) == [] && Strings([]) + rest == rest
  {
  }

  lemma BlobLength(b: Slice)
    ensures |Blob(b)| == 4 + b.Len()
  {
  }

  /** groupMetadata.size counts exactly the bytes written. */
  lemma MetadataSize(m: GroupMetadata)
    ensures |MetadataBytes(m)| == 2 + (4 + SumStrings(m.topics)) + (4 + m.userData.Len())
  {
    hide Strings, Blob, BigEndian;
    StringsLength(m.topics);
    BlobLength(m.userData);
  }

  function SumStrings(a: seq<Str>): nat {
    if a == [] then 0 else (2 + |a[0]|) + SumStrings(a[1..])
  }

  lemma StringsLength(a: seq<Str>)
    ensures |Strings(a)| == SumStrings(a)
  {
  }

  ghost predicate Encodable(topics: map<Str, seq<int>>) {
    |topics| < 0x8000_0000 && forall t :: t in topics ==> |t| < 0x8000 && AllInt32(topics[t])
  }

  /** The entries read so far, in order. */
  function Collect(order: seq<Str>, topics: map<Str, seq<int>>, acc: map<Str, seq<int>>): map<Str, seq<int>>
    requires Within(order, topics)
    decreases |order|
  {
    if order == [] then acc else Collect(order[1..], topics, acc[order[0] := topics[order[0]]])
  }

  lemma {:induction false} CollectContents(order: seq<Str>, topics: map<Str, seq<int>>, acc: map<Str, seq<int>>)
    requires Within(order, topics)
    ensures var c := Collect(order, topics, acc);
            && (forall t :: t in c <==> t in acc || t in order)
            && (forall t :: t in order ==> c[t] == topics[t])
            && (forall t :: t in acc && t !in order ==> c[t] == acc[t])
    decreases |order|
  {
    if order != [] {
      CollectContents(order[1..], topics, acc[order[0] := topics[order[0]]]);
    }
  }

  lemma EntryParts(order: seq<Str>, topics: map<Str, seq<int>>, rest: seq<byte>)
    requires order != [] && Within(order, topics)
    ensures var x, y, z := String(order[0]), Int32Array(topics[order[0]]), Entries(order[1..], topics);
            && Entries(order, topics) + rest == x + (y + (z + rest))
            && |Entries(order, topics)| == |x| + |y| + |z|
  {
    hide String, Int32Array;
    var x, y, z := String(order[0]), Int32Array(topics[order[0]]), Entries(order[1..], topics);
    Assoc(x + y, z, rest);
    Assoc(x, y, z + rest);
  }

  lemma {:induction false} ReadsEntries(order: seq<Str>, topics: map<Str, seq<int>>, acc: map<Str, seq<int>>,
                                        rest: seq<byte>, k: nat)
    requires Within(order, topics) && Encodable(topics)
    ensures ReadEntries(Src(Entries(order, topics) + rest, |Entries(order, topics)| + k), |order|, acc)
         == Ok(Collect(order, topics, acc), Src(rest, k))
    decreases |order|
  {
    hide ReadString, ReadInt32Array, Int32Array, String, AllInt32;
    if order == [] {
      assert Entries(order, topics) + rest == rest;
    } else {
      var head := order[0];
      var x, y, z := String(head), Int32Array(topics[head]), Entries(order[1..], topics);
      EntryParts(order, topics, rest);
      StringLength(head);
      ReadsString(head, y + (z + rest), |x| + |y| + |z| + k);
      ReadsInt32Array(topics[head], z + rest, |z| + k);
      ReadsEntries(order[1..], topics, acc[head := topics[head]], rest, k);
    }
  }

  lemma StringLength(s: Str)
    ensures |String(s)| == 2 + |s|
  {
  }

  lemma CollectAll(order: seq<Str>, topics: map<Str, seq<int>>)
    requires Traverses(order, topics)
    ensures Collect(order, topics, map[]) == topics
  {
    CollectContents(order, topics, map[]);
  }

  lemma ReadsMap(order: seq<Str>, topics: map<Str, seq<int>>, rest: seq<byte>, k: nat)
    requires Traverses(order, topics) && Encodable(topics)
    ensures ReadMap(Src(Int32(|order|) + (Entries(order, topics) + rest), 4 + |Entries(order, topics)| + k))
              == Ok(topics, Src(rest, k))
  {
    hide Fits, ReadInt, BigEndian, Entries, ReadEntries, Collect, AllInt32;
    var x := Entries(order, topics);
    Int32Fits(|order|);
    ReadsInt(4, |order|, x + rest, 4 + |x| + k);
    ReadsEntries(order, topics, map[], rest, k);
    CollectAll(order, topics);
    if order == [] {
      NoEntries(topics, rest);
    }
  }

  lemma NoEntries(topics: map<Str, seq<int>>, rest: seq<byte>)
    ensures Entries([], topics) == [] && Entries([], topics) + rest == rest
    ensures Collect([], topics, map[]) == map[]
  {
  }

  /** An assignment written in any order of its topics reads back as itself, to the last byte. */
  lemma AssignmentRoundTrip(a: GroupAssignment, order: seq<Str>, rest: seq<byte>, k: nat)
    requires Traverses(order, a.topics) && Encodable(a.topics)
    requires Fits(2, a.version) && a.userData.Len() < 0x8000_0000
    ensures ReadAssignment(Src(AssignmentBytes(a, order) + rest, |AssignmentBytes(a, order)| + k))
         == Ok(a.(userData := a.userData.Normal()), Src(rest, k))
  {
    hide Fits, ReadInt, BigEndian, Entries, ReadMap, ReadBytes, Encodable, Blob;
    var x, y := Entries(order, a.topics), Blob(a.userData);
    BlobLength(a.userData);
    Assoc(Int16(a.version) + Int32(|order|), x + y, rest);
    Assoc(Int16(a.version), Int32(|order|), x + y + rest);
    Assoc(x, y, rest);
    ReadsInt(2, a.version, Int32(|order|) + (x + (y + rest)), 6 + |x| + |y| + k);
    ReadsMap(order, a.topics, y + rest, |y| + k);
    ReadsBytes(a.userData, rest, |y| + k);
  }

  // ---------------------------------------------------------------------
  // From the leader to every member
  // ---------------------------------------------------------------------

  /** The conversion of makeSyncGroupRequestV0. */
  function ToInt32s(parts: seq<int>): (r: seq<int>)
    ensures |r| == |parts|
  {
    seq(|parts|, i requires 0 <= i < |parts| => Wrap32(parts[i]))
  }

  function ToInt32Topics(topics: map<Str, seq<int>>): map<Str, seq<int>> {
    map t | t in topics :: ToInt32s(topics[t])
  }

  /** The payload for one member. */
  function Payload(topics: map<Str, seq<int>>, order: seq<Str>): seq<byte>
    requires Within(order, topics)
  {
    AssignmentBytes(GroupAssignment(1, ToInt32Topics(topics), Nil), order)
  }

  lemma SameTopics(topics: map<Str, seq<int>>)
    requires Encodable(topics)
    ensures ToInt32Topics(topics) == topics
  {
    forall t | t in topics
      ensures ToInt32s(topics[t]) == topics[t]
    {
      assert AllInt32(topics[t]);
      forall i | 0 <= i < |topics[t]|
        ensures Wrap32(topics[t][i]) == topics[t][i]
      {
        WrapFits(topics[t][i]);
      }
    }
  }

  lemma WrapFits(v: int)
    requires Fits(4, v)
    ensures Wrap32(v) == v
  {
    Widths();
  }

  /** Every member's part can be encoded and is traversed in some order. */
  ghost predicate Sendable(g: Assignments, orders: map<Str, seq<Str>>) {
    forall id :: id in g ==> SendableTo(g, orders, id)
  }

  ghost predicate SendableTo(g: Assignments, orders: map<Str, seq<Str>>, id: Str) {
    id in g && id in orders && Traverses(orders[id], g[id]) && Encodable(g[id])
  }

  ghost function PayloadFor(g: Assignments, orders: map<Str, seq<Str>>, id: Str): seq<byte>
    requires SendableTo(g, orders, id)
  {
    Payload(g[id], orders[id])
  }

  /** What a member subscribes to after decoding its payload. */
  function Decoded(payload: seq<byte>, topic: Str): seq<int> {
    match ReadAssignment(Src(payload, |payload|))
    case Ok(a, _) => if topic in a.topics then a.topics[topic] else []
    case Fail(_, _) => []
  }

  lemma DecodedIsGiven(g: Assignments, id: Str, order: seq<Str>, topic: Str)
    requires id in g && Traverses(order, g[id]) && Encodable(g[id])
    ensures ReadAssignment(Src(Payload(g[id], order), |Payload(g[id], order)|)).rest == Src([], 0)
    ensures Decoded(Payload(g[id], order), topic) == Given(g, id, topic)
  {
    hide ReadAssignment, AssignmentBytes, Encodable;
    SameTopics(g[id]);
    var a := GroupAssignment(1, g[id], Nil);
    Int16Fits(1);
    AssignmentRoundTrip(a, order, [], 0);
    assert AssignmentBytes(a, order) + [] == AssignmentBytes(a, order);
  }

  /**
   The whole way: the leader assigns, every member's part is encoded in any
   order and decoded by that member.  Each partition of each subscribed topic
   is then held by exactly one member, one that subscribes to the topic.
   */
  lemma SubscriptionsCover(policy: Policy, members: seq<Member>, partitions: seq<Partition>, g: Assignments,
                           orders: map<Str, seq<Str>>, topic: Str, p: int)
    requires forall id, t :: Given(g, id, t) == Granted(policy, members, partitions, id, t)
    requires forall id :: id in g <==> Subscribed(members, id)
    requires Sendable(g, orders)
    requires p in PartitionIds(partitions, topic) && Distinct(PartitionIds(partitions, topic))
    requires Subscribers(members, topic) != []
    ensures exists owner :: owner in g && owner in Subscribers(members, topic)
              && forall id :: id in g ==>
                   multiset(Decoded(PayloadFor(g, orders, id), topic))[p] == if id == owner then 1 else 0
  {
    hide Granted, Subscribers, PartitionIds, Payload, Encodable, Distinct, Given, Traverses;
    ExactlyOne(policy, members, partitions, topic);
    var owner :| OwnsAlone(policy, members, partitions, topic, p, owner);
    assert Subscribed(members, owner);
    forall id | id in g
      ensures multiset(Decoded(PayloadFor(g, orders, id), topic))[p] == if id == owner then 1 else 0
    {
      DecodedIsGiven(g, id, orders[id], topic);
      assert Given(g, id, topic) == Granted(policy, members, partitions, id, topic);
    }
  }

  // ---------------------------------------------------------------------
  // The code
  // ---------------------------------------------------------------------

  method WriteInt32Array(w: Streams.Writer, a: seq<int>)
    modifies w
    ensures w.out == old(w.out) + Int32Array(a)
  {
    hide BigEndian;
    w.Write(Int32(|a|));
    ghost var start := w.out;
    for i := 0 to |a|
      invariant w.out + Ints(a[i..]) == start + Ints(a)
    {
      ghost var before := w.out;
      assert a[i..][1..] == a[i + 1..];
      w.Write(Int32(a[i]));
      Assoc(before, Int32(a[i]), Ints(a[i + 1..]));
    }
    Assoc(old(w.out), Int32(|a|), Ints(a));
  }

  lemma {:induction false} EntriesAppend(order: seq<Str>, t: Str, topics: map<Str, seq<int>>)
    requires Within(order + [t], topics)
    ensures Within(order, topics) && t in topics
    ensures Entries(order + [t], topics) == Entries(order, topics) + (String(t) + Int32Array(topics[t]))
    decreases |order|
  {
    hide String, Int32Array;
    assert t in order + [t];
    assert forall x :: x in order ==> x in order + [t];
    if order == [] {
      assert [] + [t] == [t];
      assert Entries([t], topics) == String(t) + Int32Array(topics[t]) + Entries([t][1..], topics);
    } else {
      assert (order + [t])[1..] == order[1..] + [t];
      EntriesAppend(order[1..], t, topics);
      Assoc(String(order[0]) + Int32Array(topics[order[0]]), Entries(order[1..], topics),
            String(t) + Int32Array(topics[t]));
    }
  }

  /** groupAssignment.writeTo: the map is traversed in whatever order comes. */
  method WriteAssignment(w: Streams.Writer, a: GroupAssignment) returns (ghost order: seq<Str>)
    modifies w
    ensures Traverses(order, a.topics)
    ensures w.out == old(w.out) + AssignmentBytes(a, order)
  {
    hide BigEndian, Blob, Entries;
    w.Write(Int16(a.version));
    w.Write(Int32(|a.topics|));
    ghost var start := w.out;
    order := [];
    NoEntries(a.topics, []);
    var left := a.topics.Keys;
    while left != {}
      invariant left <= a.topics.Keys && Within(order, a.topics) && Distinct(order)
      invariant forall t :: t in a.topics ==> (t in order <==> t !in left)
      invariant |order| + |left| == |a.topics|
      invariant w.out == start + Entries(order, a.topics)
      decreases left
    {
      var t :| t in left;
      ghost var before := w.out;
      w.Write(String(t));
      WriteInt32Array(w, a.topics[t]);
      Appended(order, t, a.topics);
      EntriesAppend(order, t, a.topics);
      Assoc(before, String(t), Int32Array(a.topics[t]));
      Assoc(start, Entries(order, a.topics), String(t) + Int32Array(a.topics[t]));
      order, left := order + [t], left - {t};
    }
    w.Write(Blob(a.userData));
    Assoc(old(w.out), Int16(a.version), Int32(|order|));
    Assoc(start, Entries(order, a.topics), Blob(a.userData));
    Assoc(old(w.out), Int16(a.version) + Int32(|order|), Entries(order, a.topics) + Blob(a.userData));
  }

  /** Taking one topic out of an order shortens what is written by its entry. */
  lemma {:induction false} TakeOut(order: seq<Str>, k: nat, topics: map<Str, seq<int>>)
    requires k < |order| && Within(order, topics)
    ensures Within(order[..k] + order[k + 1..], topics)
    ensures |Entries(order, topics)|
         == |Entries(order[..k] + order[k + 1..], topics)| + |String(order[k]) + Int32Array(topics[order[k]])|
    decreases k
  {
    hide String, Int32Array;
    var rest := order[..k] + order[k + 1..];
    assert forall t :: t in rest ==> t in order;
    if k == 0 {
      assert rest == order[1..];
    } else {
      var tail := order[1..];
      TakeOut(tail, k - 1, topics);
      assert rest[0] == order[0] && rest[1..] == tail[..k - 1] + tail[k..];
      assert tail[k - 1] == order[k];
    }
  }

  /** However the map is traversed, as many bytes are written. */
  lemma {:induction false} OrdersAlike(a: seq<Str>, b: seq<Str>, topics: map<Str, seq<int>>)
    requires Within(a, topics) && Within(b, topics) && Distinct(a) && Distinct(b) && Elements(a) == Elements(b)
    ensures |Entries(a, topics)| == |Entries(b, topics)|
    decreases |a|
  {
    hide Entries, Distinct, Within, String, Int32Array;
    assert b != [] ==> b[0] in Elements(a);
    if a == [] {
      assert b == [];
    } else {
      assert a[0] in Elements(b);
      var k :| 0 <= k < |b| && b[k] == a[0];
      TakeOut(a, 0, topics);
      TakeOut(b, k, topics);
      Without(a, 0);
      Without(b, k);
      OrdersAlike(a[..0] + a[1..], b[..k] + b[k + 1..], topics);
    }
  }

  lemma Without(b: seq<Str>, k: nat)
    requires k < |b| && Distinct(b)
    ensures Distinct(b[..k] + b[k + 1..]) && Elements(b[..k] + b[k + 1..]) == Elements(b) - {b[k]}
  {
    var rest := b[..k] + b[k + 1..];
    forall t | t in b && t != b[k]
      ensures t in rest
    {
      var i :| 0 <= i < |b| && b[i] == t;
      assert rest[if i < k then i else i - 1] == t;
    }
  }

  /**
   groupAssignment.size counts the number of topics with two bytes where writeTo
   writes four: always two short, in whatever order the map is written.
   */
  method AssignmentSize(a: GroupAssignment) returns (size: nat)
    ensures forall order :: Traverses(order, a.topics) ==> size + 2 == |AssignmentBytes(a, order)|
  {
    hide BigEndian, Entries;
    size := 2 + 2;
    ghost var done := [];
    NoEntries(a.topics, []);
    var left := a.topics.Keys;
    while left != {}
      invariant left <= a.topics.Keys && Within(done, a.topics) && Distinct(done)
      invariant forall t :: t in a.topics ==> (t in done <==> t !in left)
      invariant size == 4 + |Entries(done, a.topics)|
      decreases left
    {
      var t :| t in left;
      size := size + (2 + |t|) + (4 + 4 * |a.topics[t]|);
      Appended(done, t, a.topics);
      EntriesAppend(done, t, a.topics);
      IntsLength(a.topics[t]);
      done, left := done + [t], left - {t};
    }
    size := size + (4 + a.userData.Len());
    forall order | Traverses(order, a.topics)
      ensures size + 2 == |AssignmentBytes(a, order)|
    {
      assert Elements(done) == Elements(order);
      OrdersAlike(done, order, a.topics);
    }
  }

  lemma {:induction false} IntsLength(a: seq<int>)
    ensures |Ints(a)| == 4 * |a|
    decreases |a|
  {
    if a != [] {
      IntsLength(a[1..]);
    }
  }

  lemma Appended(order: seq<Str>, t: Str, topics: map<Str, seq<int>>)
    requires Within(order, topics) && Distinct(order) && t !in order && t in topics
    ensures Within(order + [t], topics) && Distinct(order + [t])
    ensures forall x :: x in order + [t] <==> x in order || x == t
  {
  }

  method ReadInt32ArrayFrom(r: Streams.Reader, sz: nat) returns (a: seq<int>, remain: nat, err: Err)
    modifies r
    ensures Streams.Finishes(ReadInt32Array(old(r.At(sz))), r.At(remain), err)
    ensures err == NoError ==> a == ReadInt32Array(old(r.At(sz))).value
  {
    hide ReadInt, ReadInts;
    a := [];
    var n;
    n, remain, err := Streams.ReadInt(r, sz, 4);
    if err == NoError && n > 0 {
      a, remain, err := ReadIntsFrom(r, remain, n);
    }
  }

  method ReadIntsFrom(r: Streams.Reader, sz: nat, count: nat) returns (a: seq<int>, remain: nat, err: Err)
    modifies r
    ensures Streams.Finishes(ReadInts(old(r.At(sz)), count), r.At(remain), err)
    ensures err == NoError ==> a == ReadInts(old(r.At(sz)), count).value
  {
    hide ReadInts, ReadInt;
    a, remain, err := [], sz, NoError;
    ghost var all := ReadInts(r.At(sz), count);
    ContinuesStart(all);
    var n := count;
    while n > 0
      invariant 0 <= n <= count && err == NoError
      invariant Streams.Continues(all, a, ReadInts(r.At(remain), n))
      decreases n
    {
      ContinuesStep(all, a, r.At(remain), n);
      var v;
      v, remain, err := Streams.ReadInt(r, remain, 4);
      if err != NoError {
        return;
      }
      a, n := a + [v], n - 1;
    }
    ContinuesEnd(all, a, r.At(remain));
  }

  lemma ContinuesStart(all: R<seq<int>>)
    ensures Streams.Continues(all, [], all)
  {
    assert all.Ok? ==> [] + all.value == all.value;
  }

  lemma ContinuesEnd(all: R<seq<int>>, a: seq<int>, s: Src)
    requires Streams.Continues(all, a, ReadInts(s, 0))
    ensures all == Ok(a, s)
  {
    assert a + [] == a;
  }

  lemma ContinuesStep(all: R<seq<int>>, a: seq<int>, s: Src, n: nat)
    requires n > 0 && Streams.Continues(all, a, ReadInts(s, n))
    ensures var r := ReadInt(s, 4);
            && (r.Fail? ==> all == Fail(r.error, r.rest))
            && (r.Ok? ==> Streams.Continues(all, a + [r.value], ReadInts(r.rest, n - 1)))
  {
    hide ReadInt;
    var r := ReadInt(s, 4);
    if r.Ok? {
      Streams.OneMore(all, a, ReadInts(s, n), r.value, ReadInts(r.rest, n - 1));
    }
  }

  /** readMapStringInt32. */
  method ReadMapFrom(r: Streams.Reader, sz: nat) returns (m: map<Str, seq<int>>, remain: nat, err: Err)
    modifies r
    ensures Streams.Finishes(ReadMap(old(r.At(sz))), r.At(remain), err)
    ensures err == NoError ==> m == ReadMap(old(r.At(sz))).value
  {
    hide ReadInt, ReadString, ReadInt32Array, ReadEntries;
    m := map[];
    var n;
    n, remain, err := Streams.ReadInt(r, sz, 4);
    if err != NoError {
      return;
    }
    ghost var all := if n > 0 then ReadEntries(r.At(remain), n, map[]) else Ok(map[], r.At(remain));
    var i := 0;
    while i < n
      invariant 0 <= i && (n > 0 ==> i <= n) && err == NoError
      invariant all == if i < n then ReadEntries(r.At(remain), n - i, m) else Ok(m, r.At(remain))
      decreases n - i
    {
      EntriesStep(r.At(remain), n - i, m);
      var key, values;
      key, remain, err := Streams.ReadString(r, remain);
      if err != NoError {
        return;
      }
      values, remain, err := ReadInt32ArrayFrom(r, remain);
      if err != NoError {
        return;
      }
      m, i := m[key := values], i + 1;
    }
  }

  lemma EntriesStep(s: Src, n: nat, acc: map<Str, seq<int>>)
    requires n > 0
    ensures ReadEntries(s, n, acc) ==
            match ReadString(s)
            case Fail(e, t) => Fail(e, t)
            case Ok(key, t) => match ReadInt32Array(t)
              case Fail(e, u) => Fail(e, u)
              case Ok(values, u) => if n == 1 then Ok(acc[key := values], u)
                  else ReadEntries(u, n - 1, acc[key := values])
  {
    hide ReadString, ReadInt32Array;
  }
}
