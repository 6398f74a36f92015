/**
 Partition assignment by the leader of a consumer group (groupbalancer.go):
 the range and the round-robin balancer.
 */
module GroupBalancer {
  import opened Collections
  import Balancer
  import Wire

  /** A Go string: its bytes. */
  type Str = seq<Wire.byte>

  datatype Member = Member(id: Str, topics: seq<Str>)

  datatype Partition = Partition(topic: Str, id: int)

  /** member -> topic -> partitions. */
  type Assignments = map<Str, map<Str, seq<int>>>

  datatype Policy = Range | RoundRobin

  // ---------------------------------------------------------------------
  // Member IDs are ordered as Go orders strings
  // ---------------------------------------------------------------------

  predicate Less(a: Str, b: Str) {
    b != [] && (a == [] || a[0] < b[0] || (a[0] == b[0] && Less(a[1..], b[1..])))
  }

  lemma {:induction false} LessTotal(a: Str, b: Str)
    ensures Less(a, b) || a == b || Less(b, a)
    ensures !(Less(a, b) && Less(b, a)) && !Less(a, a)
  {
    if a != [] && b != [] && a[0] == b[0] {
      LessTotal(a[1..], b[1..]);
      assert a == [a[0]] + a[1..] && b == [b[0]] + b[1..];
    }
    if a != [] {
      LessTotal(a[1..], a[1..]);
    }
  }

  lemma {:induction false} LessTransitive(a: Str, b: Str, c: Str)
    requires Less(a, b) && Less(b, c)
    ensures Less(a, c)
  {
    if a != [] && a[0] == b[0] == c[0] {
      LessTransitive(a[1..], b[1..], c[1..]);
    }
  }

  predicate AtMost(a: Str, b: Str) {
    a == b || Less(a, b)
  }

  ghost predicate Sorted(s: seq<Str>) {
    forall i, j :: 0 <= i < j < |s| ==> AtMost(s[i], s[j])
  }

  function Insert(s: seq<Str>, x: Str): seq<Str> {
    if s == [] || AtMost(x, s[0]) then [x] + s else [s[0]] + Insert(s[1..], x)
  }

  /** sort.Slice by ID. */
  function Sort(s: seq<Str>): seq<Str> {
    if s == [] then [] else Insert(Sort(s[..|s| - 1]), s[|s| - 1])
  }

  lemma {:induction false} InsertMultiset(s: seq<Str>, x: Str)
    ensures multiset(Insert(s, x)) == multiset(s) + multiset{x}
  {
    if s == [] || AtMost(x, s[0]) {
    } else {
      InsertMultiset(s[1..], x);
      assert s == [s[0]] + s[1..];
    }
  }

  lemma SortedCons(x: Str, s: seq<Str>)
    requires Sorted(s) && forall y :: y in s ==> AtMost(x, y)
    ensures Sorted([x] + s)
  {
  }

  lemma {:induction false} InsertSorted(s: seq<Str>, x: Str)
    requires Sorted(s)
    ensures Sorted(Insert(s, x))
  {
    hide Less;
    if s == [] || AtMost(x, s[0]) {
      forall y | y in s
        ensures AtMost(x, y)
      {
        if Less(x, s[0]) && Less(s[0], y) {
          LessTransitive(x, s[0], y);
        }
      }
      SortedCons(x, s);
    } else {
      InsertSorted(s[1..], x);
      InsertMultiset(s[1..], x);
      LessTotal(x, s[0]);
      forall y | y in Insert(s[1..], x)
        ensures AtMost(s[0], y)
      {
        assert y in multiset(Insert(s[1..], x));
      }
      SortedCons(s[0], Insert(s[1..], x));
    }
  }

  lemma {:induction false} SortSorts(s: seq<Str>)
    ensures Sorted(Sort(s)) && multiset(Sort(s)) == multiset(s)
  {
    if s != [] {
      var init, last := s[..|s| - 1], s[|s| - 1];
      SortSorts(init);
      InsertSorted(Sort(init), last);
      InsertMultiset(Sort(init), last);
      assert s == init + [last];
    }
  }

  /** There is only one way to sort. */
  lemma {:induction false} SortedUnique(a: seq<Str>, b: seq<Str>)
    requires Sorted(a) && Sorted(b) && multiset(a) == multiset(b)
    ensures a == b
  {
    hide AtMost;
    if a == [] {
      assert |multiset(b)| == 0;
    } else {
      SameFirst(a, b);
      RestOf(a);
      RestOf(b);
      SortedUnique(a[1..], b[1..]);
      assert a == [a[0]] + a[1..] && b == [b[0]] + b[1..];
    }
  }

  lemma SameFirst(a: seq<Str>, b: seq<Str>)
    requires Sorted(a) && Sorted(b) && multiset(a) == multiset(b) && a != []
    ensures b != [] && a[0] == b[0]
  {
    hide Less;
    assert a[0] in multiset(a) && a[0] in b;
    assert b[0] in multiset(b) && b[0] in a;
    LessTotal(a[0], b[0]);
  }

  lemma RestOf(s: seq<Str>)
    requires s != []
    ensures multiset(s[1..]) == multiset(s) - multiset{s[0]}
  {
    assert s == [s[0]] + s[1..];
  }

  // ---------------------------------------------------------------------
  // Who shares a topic
  // ---------------------------------------------------------------------

  function Repeat(topics: seq<Str>, topic: Str, id: Str): seq<Str> {
    if topics == [] then []
    else Repeat(topics[..|topics| - 1], topic, id) + if topics[|topics| - 1] == topic then [id] else []
  }

  /** The IDs of the members that list `topic`, once per mention. */
  function Subscribers(members: seq<Member>, topic: Str): seq<Str> {
    if members == [] then []
    else Subscribers(members[..|members| - 1], topic)
         + Repeat(members[|members| - 1].topics, topic, members[|members| - 1].id)
  }

  ghost predicate Subscribed(members: seq<Member>, id: Str) {
    exists topic :: id in Subscribers(members, topic)
  }

  function PartitionIds(partitions: seq<Partition>, topic: Str): seq<int> {
    if partitions == [] then []
    else PartitionIds(partitions[..|partitions| - 1], topic)
         + if partitions[|partitions| - 1].topic == topic then [partitions[|partitions| - 1].id] else []
  }

  /** They are those of the partitions of the topic, and no others. */
  lemma {:induction false} PartitionIdsOf(partitions: seq<Partition>, topic: Str)
    ensures forall id :: id in PartitionIds(partitions, topic) <==> Partition(topic, id) in partitions
    decreases |partitions|
  {
    if partitions != [] {
      var init, last := partitions[..|partitions| - 1], partitions[|partitions| - 1];
      PartitionIdsOf(init, topic);
      assert forall p :: p in partitions <==> p in init || p == last;
    }
  }

  // ---------------------------------------------------------------------
  // What a member gets of one topic
  // ---------------------------------------------------------------------

  /** Where the block of position `k` of `n` begins among `p` partitions. */
  function Bound(k: nat, p: nat, n: nat): nat
    requires n > 0
  {
    k * p / n
  }

  /** Does position `k` of `n` get partition number `j` of `p`? */
  predicate Owns(policy: Policy, k: nat, j: nat, p: nat, n: nat)
    requires n > 0
  {
    match policy
    case Range => Bound(k, p, n) <= j < Bound(k + 1, p, n)
    case RoundRobin => j % n == k
  }

  /** The first `m` partitions that position `k` of `n` gets. */
  function Share(policy: Policy, k: nat, parts: seq<int>, n: nat, m: nat): seq<int>
    requires n > 0 && m <= |parts|
  {
    if m == 0 then []
    else Share(policy, k, parts, n, m - 1) + if Owns(policy, k, m - 1, |parts|, n) then [parts[m - 1]] else []
  }

  /** What the first `m` positions give to `id`. */
  function Assigned(policy: Policy, ids: seq<Str>, parts: seq<int>, id: Str, m: nat): seq<int>
    requires m <= |ids|
  {
    if m == 0 then []
    else
      Assigned(policy, ids, parts, id, m - 1)
      + if ids[m - 1] == id then Share(policy, m - 1, parts, |ids|, |parts|) else []
  }

  /** The whole assignment, as a function of who subscribes to what. */
  function Granted(policy: Policy, members: seq<Member>, partitions: seq<Partition>, id: Str, topic: Str): seq<int> {
    var ids := Sort(Subscribers(members, topic));
    Assigned(policy, ids, PartitionIds(partitions, topic), id, |ids|)
  }

  // ---------------------------------------------------------------------
  // Every partition has exactly one owner
  // ---------------------------------------------------------------------

  lemma NextBound(k: nat, p: nat, n: nat)
    requires n > 0
    ensures Bound(k, p, n) + p / n <= Bound(k + 1, p, n) <= Bound(k, p, n) + p / n + 1
  {
    var x := k * p;
    assert (k + 1) * p == x + p;
    Balancer.QuotientSum(x, p, n);
  }

  lemma {:induction false} RangeMonotone(k: nat, l: nat, p: nat, n: nat)
    requires n > 0 && k <= l
    ensures Bound(k, p, n) <= Bound(l, p, n)
    decreases l - k
  {
    hide Bound;
    if k < l {
      NextBound(k, p, n);
      assert p / n >= 0;
      RangeMonotone(k + 1, l, p, n);
    }
  }

  lemma RangeEnds(p: nat, n: nat)
    requires n > 0
    ensures Bound(0, p, n) == 0 && Bound(n, p, n) == p
  {
    Balancer.AddMultiple(0, p, n);
    assert n * p == 0 + p * n;
    assert 0 * p == 0;
  }

  lemma OwnerUnique(policy: Policy, j: nat, p: nat, n: nat, k: nat, l: nat)
    requires n > 0 && k <= l && Owns(policy, k, j, p, n) && Owns(policy, l, j, p, n)
    ensures k == l
  {
    hide Bound;
    if policy.Range? && k < l {
      RangeMonotone(k + 1, l, p, n);
    }
  }

  lemma {:induction false} RangeOwner(j: nat, p: nat, n: nat, m: nat) returns (k: nat)
    requires n > 0 && m > 0 && j < Bound(m, p, n)
    ensures k < m && Owns(Range, k, j, p, n)
    decreases m
  {
    hide Bound;
    if Bound(m - 1, p, n) <= j {
      k := m - 1;
    } else {
      RangeEnds(p, n);
      k := RangeOwner(j, p, n, m - 1);
    }
  }

  lemma OwnerExists(policy: Policy, j: nat, p: nat, n: nat) returns (k: nat)
    requires n > 0 && j < p
    ensures k < n && Owns(policy, k, j, p, n)
  {
    hide Bound;
    match policy {
      case Range =>
        RangeEnds(p, n);
        k := RangeOwner(j, p, n, n);
      case RoundRobin =>
        k := j % n;
    }
  }

  lemma DistinctAt<T>(s: seq<T>, i: nat, j: nat)
    requires Distinct(s) && i < |s| && j < |s|
    ensures s[i] == s[j] <==> i == j
  {
    if i < j {
      assert s[i] != s[j];
    } else if j < i {
      assert s[j] != s[i];
    }
  }

  lemma NoShare(policy: Policy, k: nat, parts: seq<int>, n: nat)
    requires n > 0
    ensures Share(policy, k, parts, n, 0) == []
  {
  }

  lemma ShareStep(policy: Policy, k: nat, parts: seq<int>, n: nat, m: nat, j: nat)
    requires n > 0 && 0 < m <= |parts| && j < |parts|
    ensures multiset(Share(policy, k, parts, n, m))[parts[j]]
         == multiset(Share(policy, k, parts, n, m - 1))[parts[j]]
            + if Owns(policy, k, m - 1, |parts|, n) && parts[m - 1] == parts[j] then 1 else 0
  {
    hide Owns;
  }

  lemma {:induction false} ShareHas(policy: Policy, k: nat, parts: seq<int>, n: nat, m: nat, j: nat)
    requires n > 0 && m <= |parts| && j < |parts| && Distinct(parts)
    ensures multiset(Share(policy, k, parts, n, m))[parts[j]]
         == if j < m && Owns(policy, k, j, |parts|, n) then 1 else 0
  {
    hide Owns, Distinct, Share;
    if m == 0 {
      NoShare(policy, k, parts, n);
    } else {
      ShareHas(policy, k, parts, n, m - 1, j);
      DistinctAt(parts, j, m - 1);
      ShareStep(policy, k, parts, n, m, j);
    }
  }

  lemma {:induction false} AssignedHas(policy: Policy, ids: seq<Str>, parts: seq<int>, id: Str, m: nat, j: nat,
                                       owner: nat)
    requires m <= |ids| && j < |parts| && Distinct(parts) && owner < |ids| && Owns(policy, owner, j, |parts|, |ids|)
    ensures multiset(Assigned(policy, ids, parts, id, m))[parts[j]] == if owner < m && ids[owner] == id then 1 else 0
  {
    hide Owns, Share, Assigned, Distinct;
    AssignedStep(policy, ids, parts, id, m, parts[j]);
    if m > 0 {
      AssignedHas(policy, ids, parts, id, m - 1, j, owner);
      ShareHas(policy, m - 1, parts, |ids|, |parts|, j);
      OnlyOwner(policy, j, |parts|, |ids|, owner, m - 1);
    }
  }

  lemma AssignedStep(policy: Policy, ids: seq<Str>, parts: seq<int>, id: Str, m: nat, x: int)
    requires m <= |ids|
    ensures multiset(Assigned(policy, ids, parts, id, m))[x]
         == if m == 0 then 0
            else multiset(Assigned(policy, ids, parts, id, m - 1))[x]
                 + if ids[m - 1] == id then multiset(Share(policy, m - 1, parts, |ids|, |parts|))[x] else 0
  {
    hide Owns, Share;
  }

  lemma OnlyOwner(policy: Policy, j: nat, p: nat, n: nat, owner: nat, k: nat)
    requires n > 0 && Owns(policy, owner, j, p, n)
    ensures Owns(policy, k, j, p, n) <==> k == owner
  {
    hide Owns;
    if Owns(policy, k, j, p, n) {
      if owner <= k {
        OwnerUnique(policy, j, p, n, owner, k);
      } else {
        OwnerUnique(policy, j, p, n, k, owner);
      }
    }
  }

  lemma {:induction false} ShareWithin(policy: Policy, k: nat, parts: seq<int>, n: nat, m: nat, x: int)
    requires n > 0 && m <= |parts| && x in Share(policy, k, parts, n, m)
    ensures x in parts
  {
    hide Owns;
    if m > 0 && x in Share(policy, k, parts, n, m - 1) {
      ShareWithin(policy, k, parts, n, m - 1, x);
    }
  }

  lemma {:induction false} AssignedWithin(policy: Policy, ids: seq<Str>, parts: seq<int>, id: Str, m: nat, x: int)
    requires m <= |ids| && x in Assigned(policy, ids, parts, id, m)
    ensures x in parts && id in ids
  {
    hide Share;
    if x in Assigned(policy, ids, parts, id, m - 1) {
      AssignedWithin(policy, ids, parts, id, m - 1, x);
    } else {
      ShareWithin(policy, m - 1, parts, |ids|, |parts|, x);
    }
  }

  /** The member that is granted partition `p` of `topic`. */
  ghost predicate OwnsAlone(policy: Policy, members: seq<Member>, partitions: seq<Partition>, topic: Str, p: int,
                            id: Str) {
    && id in Subscribers(members, topic)
    && (forall other :: multiset(Granted(policy, members, partitions, other, topic))[p] == if other == id then 1 else 0)
  }

  /**
   Both balancers, for any members and any topic somebody subscribes to: each
   partition of the topic is granted once, to exactly one member, and that
   member subscribes to the topic; and nobody is granted anything else.
   */
  lemma ExactlyOne(policy: Policy, members: seq<Member>, partitions: seq<Partition>, topic: Str)
    requires Subscribers(members, topic) != [] && Distinct(PartitionIds(partitions, topic))
    ensures forall p :: p in PartitionIds(partitions, topic) ==>
              exists id :: OwnsAlone(policy, members, partitions, topic, p, id)
    ensures forall id, p :: p in Granted(policy, members, partitions, id, topic) ==>
              p in PartitionIds(partitions, topic) && id in Subscribers(members, topic)
  {
    hide Sort, Subscribers, PartitionIds, Assigned, Owns;
    var subs, parts := Subscribers(members, topic), PartitionIds(partitions, topic);
    var ids := Sort(subs);
    SortSorts(subs);
    SameMembers(subs, ids);
    forall p | p in parts
      ensures exists id :: OwnsAlone(policy, members, partitions, topic, p, id)
    {
      var j :| 0 <= j < |parts| && parts[j] == p;
      var k := OwnerExists(policy, j, |parts|, |ids|);
      forall other
        ensures multiset(Granted(policy, members, partitions, other, topic))[p] == if other == ids[k] then 1 else 0
      {
        AssignedHas(policy, ids, parts, other, |ids|, j, k);
      }
      assert OwnsAlone(policy, members, partitions, topic, p, ids[k]);
    }
    forall id, p | p in Granted(policy, members, partitions, id, topic)
      ensures p in parts && id in subs
    {
      AssignedWithin(policy, ids, parts, id, |ids|, p);
    }
  }

  lemma SameMembers(a: seq<Str>, b: seq<Str>)
    requires multiset(a) == multiset(b)
    ensures |a| == |b|
    ensures forall x :: x in a <==> x in b
  {
    assert |multiset(a)| == |a| && |multiset(b)| == |b|;
    assert forall x :: x in a <==> x in multiset(a);
    assert forall x :: x in b <==> x in multiset(b);
  }

  // ---------------------------------------------------------------------
  // Fair shares
  // ---------------------------------------------------------------------

  lemma {:induction false} AssignedIsShare(policy: Policy, ids: seq<Str>, parts: seq<int>, k: nat, m: nat)
    requires m <= |ids| && k < |ids| && Distinct(ids)
    ensures Assigned(policy, ids, parts, ids[k], m) == if k < m then Share(policy, k, parts, |ids|, |parts|) else []
  {
    hide Share, Distinct;
    if m > 0 {
      AssignedIsShare(policy, ids, parts, k, m - 1);
      DistinctAt(ids, k, m - 1);
    }
  }

  lemma BoundsOrdered(k: nat, p: nat, n: nat)
    requires n > 0 && k < n
    ensures Bound(k, p, n) <= Bound(k + 1, p, n) <= p
    ensures p / n <= Bound(k + 1, p, n) - Bound(k, p, n) <= p / n + 1
  {
    hide Bound;
    RangeMonotone(k + 1, n, p, n);
    RangeEnds(p, n);
    NextBound(k, p, n);
    assert p / n >= 0;
  }

  /** A range share is a contiguous block. */
  lemma {:induction false} RangeBlock(k: nat, parts: seq<int>, n: nat, m: nat)
    requires n > 0 && k < n && m <= |parts|
    ensures var lo, hi := Bound(k, |parts|, n), Bound(k + 1, |parts|, n);
            && lo <= hi <= |parts|
            && Share(Range, k, parts, n, m) == if m <= lo then [] else if m <= hi then parts[lo..m] else parts[lo..hi]
  {
    hide Bound;
    BoundsOrdered(k, |parts|, n);
    if m > 0 {
      RangeBlock(k, parts, n, m - 1);
    }
  }

  lemma {:induction false} RoundRobinLength(k: nat, parts: seq<int>, n: nat, m: nat)
    requires n > 0 && m <= |parts|
    ensures |Share(RoundRobin, k, parts, n, m)| == Balancer.Chosen(0, m, n, k)
  {
    if m > 0 {
      RoundRobinLength(k, parts, n, m - 1);
    }
  }

  lemma ShareLength(policy: Policy, k: nat, parts: seq<int>, n: nat)
    requires n > 0 && k < n
    ensures |parts| / n <= |Share(policy, k, parts, n, |parts|)| <= |parts| / n + 1
  {
    hide Share, Bound;
    match policy {
      case Range =>
        RangeBlock(k, parts, n, |parts|);
        BoundsOrdered(k, |parts|, n);
      case RoundRobin =>
        RoundRobinLength(k, parts, n, |parts|);
        Balancer.ChosenClosed(0, |parts|, n, k);
        Balancer.QuotientSum(n - 1 - k, |parts|, n);
    }
  }

  /** With distinct subscriptions no member gets two more partitions of a topic than another, and ranges are blocks. */
  lemma FairShares(policy: Policy, members: seq<Member>, partitions: seq<Partition>, topic: Str, a: Str, b: Str)
    requires a in Subscribers(members, topic) && b in Subscribers(members, topic)
    requires Distinct(Subscribers(members, topic))
    ensures |Granted(policy, members, partitions, a, topic)| <= |Granted(policy, members, partitions, b, topic)| + 1
    ensures policy.Range? ==>
              exists lo, hi :: 0 <= lo <= hi <= |PartitionIds(partitions, topic)|
                            && Granted(policy, members, partitions, a, topic) == PartitionIds(partitions, topic)[lo..hi]
  {
    hide Sort, Subscribers, PartitionIds, Assigned, Share, Bound;
    var subs, parts := Subscribers(members, topic), PartitionIds(partitions, topic);
    var ids := Sort(subs);
    SortSorts(subs);
    SameMembers(subs, ids);
    DistinctSorted(subs, ids);
    var k :| 0 <= k < |ids| && ids[k] == a;
    var l :| 0 <= l < |ids| && ids[l] == b;
    AssignedIsShare(policy, ids, parts, k, |ids|);
    AssignedIsShare(policy, ids, parts, l, |ids|);
    ShareLength(policy, k, parts, |ids|);
    ShareLength(policy, l, parts, |ids|);
    if policy.Range? {
      RangeBlock(k, parts, |ids|, |parts|);
      var lo, hi := Bound(k, |parts|, |ids|), Bound(k + 1, |parts|, |ids|);
      assert Granted(policy, members, partitions, a, topic) == parts[lo..hi];
    }
  }

  lemma {:induction false} CountOnce(s: seq<Str>, x: Str)
    requires Distinct(s)
    ensures multiset(s)[x] <= 1
  {
    if s != [] {
      var init := s[..|s| - 1];
      assert s == init + [s[|s| - 1]];
      CountOnce(init, x);
    }
  }

  lemma CountTwice(s: seq<Str>, i: nat, j: nat)
    requires i < j < |s| && s[i] == s[j]
    ensures multiset(s)[s[i]] >= 2
  {
    assert s == s[..i] + [s[i]] + s[i + 1..j] + [s[j]] + s[j + 1..];
  }

  lemma DistinctSorted(a: seq<Str>, b: seq<Str>)
    requires Distinct(a) && multiset(a) == multiset(b)
    ensures Distinct(b)
  {
    forall i, j | 0 <= i < j < |b|
      ensures b[i] != b[j]
    {
      if b[i] == b[j] {
        CountTwice(b, i, j);
        CountOnce(a, b[i]);
      }
    }
  }

  // ---------------------------------------------------------------------
  // The order of the members does not matter
  // ---------------------------------------------------------------------

  lemma {:induction false} SubscribersConcat(a: seq<Member>, b: seq<Member>, topic: Str)
    ensures Subscribers(a + b, topic) == Subscribers(a, topic) + Subscribers(b, topic)
  {
    hide Repeat;
    if b == [] {
      assert a + b == a;
    } else {
      var init, last := b[..|b| - 1], b[|b| - 1];
      assert (a + b)[..|a + b| - 1] == a + init;
      SubscribersConcat(a, init, topic);
      Wire.Assoc(Subscribers(a, topic), Subscribers(init, topic), Repeat(last.topics, topic, last.id));
    }
  }

  lemma {:induction false} SubscribersPermuted(a: seq<Member>, b: seq<Member>, topic: Str)
    requires multiset(a) == multiset(b)
    ensures multiset(Subscribers(a, topic)) == multiset(Subscribers(b, topic))
    decreases |a|
  {
    hide Subscribers;
    if a == [] {
      assert |multiset(b)| == 0;
      assert a == b;
    } else {
      var init, last := a[..|a| - 1], a[|a| - 1];
      assert a == init + [last];
      assert last in multiset(b);
      var i :| 0 <= i < |b| && b[i] == last;
      var c := b[..i] + b[i + 1..];
      assert b == b[..i] + [last] + b[i + 1..];
      assert multiset(c) == multiset(b) - multiset{last};
      SubscribersPermuted(init, c, topic);
      SubscribersConcat(init, [last], topic);
      SubscribersConcat(b[..i], [last], topic);
      SubscribersConcat(b[..i] + [last], b[i + 1..], topic);
      SubscribersConcat(b[..i], b[i + 1..], topic);
    }
  }

  /** The same members in any order are granted the same partitions. */
  lemma OrderIndependent(policy: Policy, a: seq<Member>, b: seq<Member>, partitions: seq<Partition>, id: Str,
                         topic: Str)
    requires multiset(a) == multiset(b)
    ensures Granted(policy, a, partitions, id, topic) == Granted(policy, b, partitions, id, topic)
  {
    hide Sort, Subscribers, PartitionIds, Assigned;
    SubscribersPermuted(a, b, topic);
    SortSorts(Subscribers(a, topic));
    SortSorts(Subscribers(b, topic));
    SortedUnique(Sort(Subscribers(a, topic)), Sort(Subscribers(b, topic)));
  }

  // ---------------------------------------------------------------------
  // The code
  // ---------------------------------------------------------------------

  /** findPartitions. */
  method FindPartitions(topic: Str, partitions: seq<Partition>) returns (ids: seq<int>)
    ensures ids == PartitionIds(partitions, topic)
    ensures forall id :: id in ids <==> Partition(topic, id) in partitions
  {
    PartitionIdsOf(partitions, topic);
    ids := [];
    for i := 0 to |partitions|
      invariant ids == PartitionIds(partitions[..i], topic)
    {
      assert partitions[..i + 1][..i] == partitions[..i];
      if partitions[i].topic == topic {
        ids := ids + [partitions[i].id];
      }
    }
    assert partitions[..|partitions|] == partitions;
  }

  function Get(m: map<Str, seq<Str>>, topic: Str): seq<Str> {
    if topic in m then m[topic] else []
  }

  ghost predicate NoEmptyList(m: map<Str, seq<Str>>) {
    forall topic :: topic in m ==> m[topic] != []
  }

  /** The inner loop of findMembersByTopic: append one member to the list of each of its topics. */
  method AddMember(m0: map<Str, seq<Str>>, id: Str, topics: seq<Str>) returns (m: map<Str, seq<Str>>)
    ensures forall topic :: Get(m, topic) == Get(m0, topic) + Repeat(topics, topic, id)
    ensures NoEmptyList(m0) ==> NoEmptyList(m)
  {
    hide Get, Repeat;
    m := m0;
    NoRepeat(m0, id);
    for t := 0 to |topics|
      invariant forall topic :: Get(m, topic) == Get(m0, topic) + Repeat(topics[..t], topic, id)
      invariant NoEmptyList(m0) ==> NoEmptyList(m)
    {
      AddOne(m0, m, id, topics, t);
      m := m[topics[t] := Get(m, topics[t]) + [id]];
    }
    assert topics[..|topics|] == topics;
  }

  lemma NoRepeat(m0: map<Str, seq<Str>>, id: Str)
    ensures forall topic :: Get(m0, topic) == Get(m0, topic) + Repeat([], topic, id)
  {
  }

  lemma AddOne(m0: map<Str, seq<Str>>, m: map<Str, seq<Str>>, id: Str, topics: seq<Str>, t: nat)
    requires t < |topics|
    requires forall topic :: Get(m, topic) == Get(m0, topic) + Repeat(topics[..t], topic, id)
    ensures var m' := m[topics[t] := Get(m, topics[t]) + [id]];
            forall topic :: Get(m', topic) == Get(m0, topic) + Repeat(topics[..t + 1], topic, id)
  {
    var m' := m[topics[t] := Get(m, topics[t]) + [id]];
    assert topics[..t + 1][..t] == topics[..t];
    forall topic
      ensures Get(m', topic) == Get(m0, topic) + Repeat(topics[..t + 1], topic, id)
    {
      assert Get(m, topic) == Get(m0, topic) + Repeat(topics[..t], topic, id);
      if topic == topics[t] {
        Wire.Assoc(Get(m0, topic), Repeat(topics[..t], topic, id), [id]);
      }
    }
  }

  method GroupByTopic(members: seq<Member>) returns (m: map<Str, seq<Str>>)
    ensures forall topic :: Get(m, topic) == Subscribers(members, topic)
    ensures NoEmptyList(m)
  {
    hide Repeat, NoEmptyList;
    m := map[];
    EmptyMap();
    for i := 0 to |members|
      invariant forall topic :: Get(m, topic) == Subscribers(members[..i], topic)
      invariant NoEmptyList(m)
    {
      assert members[..i + 1][..i] == members[..i];
      m := AddMember(m, members[i].id, members[i].topics);
    }
    assert members[..|members|] == members;
  }

  lemma EmptyMap()
    ensures NoEmptyList(map[]) && NoEmpty(map[])
  {
  }

  /** findMembersByTopic: the lists are then sorted, one topic after another in any order. */
  method FindMembersByTopic(members: seq<Member>) returns (m: map<Str, seq<Str>>)
    ensures forall topic :: Get(m, topic) == Sort(Subscribers(members, topic))
    ensures NoEmptyList(m)
  {
    hide Sort, Subscribers;
    m := GroupByTopic(members);
    ghost var all := m;
    var left := m.Keys;
    while left != {}
      invariant left <= m.Keys == all.Keys
      invariant forall topic :: topic in m ==> m[topic] == if topic in left then all[topic] else Sort(all[topic])
      decreases left
    {
      var topic :| topic in left;
      m := m[topic := Sort(m[topic])];
      left := left - {topic};
    }
    forall topic
      ensures Get(m, topic) == Sort(Subscribers(members, topic)) && (topic in m ==> m[topic] != [])
    {
      assert Get(all, topic) == Subscribers(members, topic);
      SortSorts(Subscribers(members, topic));
      SameMembers(Subscribers(members, topic), Sort(Subscribers(members, topic)));
    }
  }

  function Given(g: Assignments, id: Str, topic: Str): seq<int> {
    if id in g && topic in g[id] then g[id][topic] else []
  }

  function Give(g: Assignments, id: Str, topic: Str, p: int): Assignments
    requires id in g
  {
    g[id := g[id][topic := Given(g, id, topic) + [p]]]
  }

  ghost predicate NoEmpty(g: Assignments) {
    forall i, t :: i in g && t in g[i] ==> g[i][t] != []
  }

  /** `g` is `g0` with `more` appended to what `id` has of `topic`. */
  ghost predicate Extends(g0: Assignments, g: Assignments, id: Str, topic: Str, more: seq<int>) {
    && g.Keys == g0.Keys + {id}
    && Given(g, id, topic) == Given(g0, id, topic) + more
    && (forall i, t :: i != id || t != topic ==> Given(g, i, t) == Given(g0, i, t))
    && (NoEmpty(g0) ==> NoEmpty(g))
  }

  lemma ExtendsStart(g0: Assignments, id: Str, topic: Str)
    ensures Extends(g0, if id in g0 then g0 else g0[id := map[]], id, topic, [])
  {
  }

  lemma ExtendsGive(g0: Assignments, g: Assignments, id: Str, topic: Str, more: seq<int>, p: int)
    requires Extends(g0, g, id, topic, more)
    ensures id in g && Extends(g0, Give(g, id, topic, p), id, topic, more + [p])
  {
  }

  /** The innermost loop: one member takes its share of one topic. */
  method TakeShare(policy: Policy, g0: Assignments, id: Str, topic: Str, k: nat, parts: seq<int>, n: nat)
    returns (g: Assignments)
    requires n > 0
    ensures Extends(g0, g, id, topic, Share(policy, k, parts, n, |parts|))
  {
    hide Owns, Extends, Give;
    ExtendsStart(g0, id, topic);
    g := g0;
    if id !in g {
      g := g[id := map[]];
    }
    for j := 0 to |parts|
      invariant Extends(g0, g, id, topic, Share(policy, k, parts, n, j))
    {
      if Owns(policy, k, j, |parts|, n) {
        ExtendsGive(g0, g, id, topic, Share(policy, k, parts, n, j), parts[j]);
        g := Give(g, id, topic, parts[j]);
      } else {
        assert Share(policy, k, parts, n, j + 1) == Share(policy, k, parts, n, j);
      }
    }
  }

  /** The first `k` members of `topic` have taken their shares. */
  ghost predicate Partly(policy: Policy, g0: Assignments, g: Assignments, topic: Str, ids: seq<Str>, parts: seq<int>,
                         k: nat)
    requires k <= |ids|
  {
    && g.Keys == g0.Keys + (set id | id in ids[..k])
    && (forall id :: Given(g, id, topic) == Assigned(policy, ids, parts, id, k))
    && (forall id, t :: t != topic ==> Given(g, id, t) == Given(g0, id, t))
    && (NoEmpty(g0) ==> NoEmpty(g))
  }

  lemma PartlyStep(policy: Policy, g0: Assignments, g: Assignments, g': Assignments, topic: Str, ids: seq<Str>,
                   parts: seq<int>, k: nat)
    requires k < |ids| && Partly(policy, g0, g, topic, ids, parts, k)
    requires Extends(g, g', ids[k], topic, Share(policy, k, parts, |ids|, |parts|))
    ensures Partly(policy, g0, g', topic, ids, parts, k + 1)
  {
    hide Share, NoEmpty, Given;
    assert ids[..k + 1] == ids[..k] + [ids[k]];
    forall id
      ensures Given(g', id, topic) == Assigned(policy, ids, parts, id, k + 1)
    {
      assert Given(g, id, topic) == Assigned(policy, ids, parts, id, k);
    }
  }

  /** The loop over the members of one topic. */
  method AssignTopic(policy: Policy, g0: Assignments, topic: Str, ids: seq<Str>, parts: seq<int>)
    returns (g: Assignments)
    requires forall id :: Given(g0, id, topic) == []
    ensures Partly(policy, g0, g, topic, ids, parts, |ids|)
  {
    hide Share, NoEmpty, Given, Extends;
    g := g0;
    for k := 0 to |ids|
      invariant Partly(policy, g0, g, topic, ids, parts, k)
    {
      hide Partly;
      ghost var before := g;
      g := TakeShare(policy, g, ids[k], topic, k, parts, |ids|);
      PartlyStep(policy, g0, before, g, topic, ids, parts, k);
    }
  }

  /** The topics in `done` are assigned and no others. */
  ghost predicate Assigning(policy: Policy, members: seq<Member>, partitions: seq<Partition>, m: map<Str, seq<Str>>,
                            done: set<Str>, g: Assignments)
  {
    && (forall id, topic :: Given(g, id, topic) ==
          if topic in done then Granted(policy, members, partitions, id, topic) else [])
    && NoEmpty(g)
    && (forall id :: id in g <==> InSome(m, done, id))
  }

  ghost predicate InSome(m: map<Str, seq<Str>>, done: set<Str>, id: Str) {
    exists topic :: topic in done && topic in m && id in m[topic]
  }

  lemma InSomeMore(m: map<Str, seq<Str>>, done: set<Str>, topic: Str, id: Str)
    requires topic in m
    ensures InSome(m, done + {topic}, id) <==> InSome(m, done, id) || id in m[topic]
  {
  }

  lemma AssigningStep(policy: Policy, members: seq<Member>, partitions: seq<Partition>, m: map<Str, seq<Str>>,
                      done: set<Str>, topic: Str, g: Assignments, g': Assignments)
    requires Assigning(policy, members, partitions, m, done, g) && topic in m
    requires m[topic] == Sort(Subscribers(members, topic))
    requires Partly(policy, g, g', topic, m[topic], PartitionIds(partitions, topic), |m[topic]|)
    ensures Assigning(policy, members, partitions, m, done + {topic}, g')
  {
    hide Assigned, Sort, Subscribers, PartitionIds, NoEmpty, InSome, Given;
    assert m[topic][..|m[topic]|] == m[topic];
    forall id
      ensures id in g' <==> InSome(m, done + {topic}, id)
    {
      InSomeMore(m, done, topic, id);
    }
    forall id, t
      ensures Given(g', id, t) == if t in done + {topic} then Granted(policy, members, partitions, id, t) else []
    {
      assert t != topic ==> Given(g', id, t) == Given(g, id, t);
    }
  }

  /**
   AssignGroups of either balancer: what every member ends up with of every
   topic, whatever order the map of topics is traversed in.
   */
  method AssignGroups(policy: Policy, members: seq<Member>, partitions: seq<Partition>) returns (g: Assignments)
    ensures forall id, topic :: Given(g, id, topic) == Granted(policy, members, partitions, id, topic)
    ensures NoEmpty(g)
    ensures forall id :: id in g <==> Subscribed(members, id)
  {
    hide Assigned, Sort, Subscribers, PartitionIds, Partly, Granted, Given;
    g := map[];
    var m := FindMembersByTopic(members);
    var left := m.Keys;
    AssigningStart(policy, members, partitions, m);
    while left != {}
      invariant left <= m.Keys
      invariant Assigning(policy, members, partitions, m, m.Keys - left, g)
      decreases left
    {
      hide Assigning;
      var topic :| topic in left;
      assert Get(m, topic) == Sort(Subscribers(members, topic));
      var parts := FindPartitions(topic, partitions);
      NothingYet(policy, members, partitions, m, m.Keys - left, g, topic);
      ghost var before := g;
      g := AssignTopic(policy, g, topic, m[topic], parts);
      AssigningStep(policy, members, partitions, m, m.Keys - left, topic, before, g);
      assert m.Keys - left + {topic} == m.Keys - (left - {topic});
      left := left - {topic};
    }
    AssigningEnd(policy, members, partitions, m, g);
  }

  lemma AssigningStart(policy: Policy, members: seq<Member>, partitions: seq<Partition>, m: map<Str, seq<Str>>)
    ensures Assigning(policy, members, partitions, m, {}, map[])
    ensures m.Keys - m.Keys == {}
  {
  }

  lemma NothingYet(policy: Policy, members: seq<Member>, partitions: seq<Partition>, m: map<Str, seq<Str>>,
                   done: set<Str>, g: Assignments, topic: Str)
    requires Assigning(policy, members, partitions, m, done, g) && topic !in done
    ensures forall id :: Given(g, id, topic) == []
  {
  }

  lemma AssigningEnd(policy: Policy, members: seq<Member>, partitions: seq<Partition>, m: map<Str, seq<Str>>,
                     g: Assignments)
    requires Assigning(policy, members, partitions, m, m.Keys, g)
    requires NoEmptyList(m) && forall topic :: Get(m, topic) == Sort(Subscribers(members, topic))
    ensures forall id, topic :: Given(g, id, topic) == Granted(policy, members, partitions, id, topic)
    ensures NoEmpty(g)
    ensures forall id :: id in g <==> Subscribed(members, id)
  {
    hide Sort, Subscribers, PartitionIds, NoEmpty, Given;
    forall id, topic
      ensures Given(g, id, topic) == Granted(policy, members, partitions, id, topic)
    {
      if topic !in m {
        assert Get(m, topic) == Sort(Subscribers(members, topic));
      }
    }
    forall id
      ensures id in g <==> Subscribed(members, id)
    {
      if id in g {
        var topic :| topic in m && id in m[topic];
        Listed(members, m, topic, id);
      }
      if Subscribed(members, id) {
        var topic :| id in Subscribers(members, topic);
        Listed(members, m, topic, id);
        assert InSome(m, m.Keys, id);
      }
    }
  }

  lemma Listed(members: seq<Member>, m: map<Str, seq<Str>>, topic: Str, id: Str)
    requires Get(m, topic) == Sort(Subscribers(members, topic))
    ensures id in Subscribers(members, topic) <==> topic in m && id in m[topic]
  {
    hide Sort, Subscribers;
    SortSorts(Subscribers(members, topic));
    SameMembers(Subscribers(members, topic), Sort(Subscribers(members, topic)));
  }
}
