/** Message balancers (balancer.go): LeastBytes with its sorted counters, and the fairness of RoundRobin. */
module Balancer {
  import opened Collections

  const TWO_64: int := 0x1_0000_0000_0000_0000

  datatype Counter = Counter(partition: int, bytes: nat)

  ghost predicate Ascending(c: seq<Counter>) {
    forall i, j :: 0 <= i < j < |c| ==> c[i].partition < c[j].partition
  }

  function Partitions(c: seq<Counter>): set<int> {
    set x | x in c :: x.partition
  }

  // ---------------------------------------------------------------------
  // What a call does to the counters
  // ---------------------------------------------------------------------

  /** The first of the smallest counters. */
  ghost predicate IsMinimum(c: seq<Counter>, i: nat) {
    && i < |c|
    && (forall j :: 0 <= j < |c| ==> c[i].bytes <= c[j].bytes)
    && (forall j :: 0 <= j < i ==> c[i].bytes < c[j].bytes)
  }

  function Add(c: seq<Counter>, i: nat, size: nat): seq<Counter>
    requires i < |c|
  {
    c[i := Counter(c[i].partition, (c[i].bytes + size) % TWO_64)]
  }

  /** The counters a call works on: rebuilt when some partition has none. */
  ghost function Start(c: seq<Counter>, partitions: seq<int>): seq<Counter> {
    if Elements(partitions) <= Partitions(c) then c else Zeros(partitions)
  }

  class LeastBytes {
    var counters: seq<Counter>

    constructor ()
      ensures counters == []
    {
      counters := [];
    }

    /** counterOf: the binary search over the counters. */
    method Has(p: int) returns (found: bool)
      requires Ascending(counters)
      ensures found <==> p in Partitions(counters)
    {
      var i, j := 0, |counters|;
      while i < j
        invariant 0 <= i <= j <= |counters|
        invariant forall k :: 0 <= k < i ==> counters[k].partition < p
        invariant forall k :: j <= k < |counters| ==> p <= counters[k].partition
      {
        var h := (i + j) / 2;
        if counters[h].partition >= p {
          j := h;
        } else {
          i := h + 1;
        }
      }
      found := i < |counters| && counters[i].partition == p;
      if found {
        assert counters[i] in counters;
      }
    }

    /** The loop that looks for a partition without a counter. */
    method Covers(partitions: seq<int>) returns (covered: bool)
      requires Ascending(counters)
      ensures covered <==> Elements(partitions) <= Partitions(counters)
    {
      for k := 0 to |partitions|
        invariant forall n :: 0 <= n < k ==> partitions[n] in Partitions(counters)
      {
        var found := Has(partitions[k]);
        if !found {
          assert partitions[k] in Elements(partitions);
          return false;
        }
      }
      return true;
    }

    /**
     Balance.  The counters are rebuilt exactly when some partition has none;
     then the first smallest counter grows by the size of the message.
     */
    method Balance(size: nat, partitions: seq<int>) returns (p: int, ghost chosen: nat)
      requires Ascending(counters) && partitions != [] && Distinct(partitions)
      modifies this
      ensures var start := Start(old(counters), partitions);
              IsMinimum(start, chosen) && counters == Add(start, chosen, size) && p == start[chosen].partition
    {
      var covered := Covers(partitions);
      assert partitions[0] in Elements(partitions);
      if !covered {
        counters := MakeCounters(partitions);
      }
      var minIndex := Minimum(counters);
      p, chosen := counters[minIndex].partition, minIndex;
      counters := counters[minIndex := Counter(p, (counters[minIndex].bytes + size) % TWO_64)];
    }
  }

  method Minimum(c: seq<Counter>) returns (minIndex: nat)
    requires c != []
    ensures IsMinimum(c, minIndex)
  {
    minIndex := 0;
    var minBytes := c[0].bytes;
    for i := 1 to |c|
      invariant minIndex < i && minBytes == c[minIndex].bytes
      invariant forall j :: 0 <= j < i ==> minBytes <= c[j].bytes
      invariant forall j :: 0 <= j < minIndex ==> minBytes < c[j].bytes
    {
      if c[i].bytes < minBytes {
        minIndex, minBytes := i, c[i].bytes;
      }
    }
  }

  // ---------------------------------------------------------------------
  // makeCounters
  // ---------------------------------------------------------------------

  function Insert(c: seq<Counter>, p: int): seq<Counter> {
    if c == [] || p < c[0].partition then [Counter(p, 0)] + c else [c[0]] + Insert(c[1..], p)
  }

  /** One zero counter per partition, sorted. */
  function Zeros(partitions: seq<int>): seq<Counter> {
    if partitions == [] then [] else Insert(Zeros(partitions[..|partitions| - 1]), partitions[|partitions| - 1])
  }

  lemma {:induction false} InsertPartitions(c: seq<Counter>, p: int)
    ensures Partitions(Insert(c, p)) == Partitions(c) + {p}
    ensures |Insert(c, p)| == |c| + 1
  {
    if c == [] || p < c[0].partition {
      ConsPartitions(Counter(p, 0), c);
    } else {
      InsertPartitions(c[1..], p);
      ConsPartitions(c[0], c[1..]);
      ConsPartitions(c[0], Insert(c[1..], p));
      assert c == [c[0]] + c[1..];
    }
  }

  lemma ConsPartitions(x: Counter, c: seq<Counter>)
    ensures Partitions([x] + c) == {x.partition} + Partitions(c)
  {
    var d := [x] + c;
    forall y | y in {x.partition} + Partitions(c)
      ensures y in Partitions(d)
    {
      if y == x.partition {
        assert d[0] in d;
      } else {
        var z :| z in c && z.partition == y;
        assert z in d;
      }
    }
  }

  lemma {:induction false} InsertZero(c: seq<Counter>, p: int)
    requires forall x :: x in c ==> x.bytes == 0
    ensures forall x :: x in Insert(c, p) ==> x.bytes == 0
  {
    if c == [] || p < c[0].partition {
    } else {
      InsertZero(c[1..], p);
    }
  }

  lemma {:induction false} InsertSorted(c: seq<Counter>, p: int)
    requires Ascending(c) && p !in Partitions(c)
    ensures Ascending(Insert(c, p))
  {
    if c == [] || p < c[0].partition {
    } else {
      assert c[0] in c;
      assert c == [c[0]] + c[1..];
      ConsPartitions(c[0], c[1..]);
      InsertSorted(c[1..], p);
      AllAfter(c[0], c[1..], p);
      AscendingCons(c[0], Insert(c[1..], p));
    }
  }

  lemma AllAfter(first: Counter, c: seq<Counter>, p: int)
    requires first.partition < p && forall x :: x in c ==> first.partition < x.partition
    ensures forall x :: x in Insert(c, p) ==> first.partition < x.partition
  {
    hide Insert;
    InsertPartitions(c, p);
    forall x | x in Insert(c, p)
      ensures first.partition < x.partition
    {
      assert x.partition in Partitions(Insert(c, p));
    }
  }

  lemma AscendingCons(first: Counter, c: seq<Counter>)
    requires Ascending(c) && forall x :: x in c ==> first.partition < x.partition
    ensures Ascending([first] + c)
  {
  }

  lemma {:induction false} ZerosSorted(partitions: seq<int>)
    requires Distinct(partitions)
    ensures Ascending(Zeros(partitions)) && Partitions(Zeros(partitions)) == Elements(partitions)
    ensures |Zeros(partitions)| == |partitions|
    ensures forall x :: x in Zeros(partitions) ==> x.bytes == 0
  {
    if partitions != [] {
      var init, last := partitions[..|partitions| - 1], partitions[|partitions| - 1];
      ZerosSorted(init);
      assert last !in init;
      assert Elements(partitions) == Elements(init) + {last};
      InsertPartitions(Zeros(init), last);
      InsertZero(Zeros(init), last);
      InsertSorted(Zeros(init), last);
    }
  }

  method MakeCounters(partitions: seq<int>) returns (c: seq<Counter>)
    requires Distinct(partitions)
    ensures c == Zeros(partitions) && Ascending(c) && |c| == |partitions|
  {
    c := [];
    for i := 0 to |partitions|
      invariant c == Zeros(partitions[..i])
    {
      assert partitions[..i + 1][..i] == partitions[..i];
      c := Insert(c, partitions[i]);
    }
    assert partitions[..|partitions|] == partitions;
    ZerosSorted(partitions);
  }

  // ---------------------------------------------------------------------
  // Runs of messages on a fixed list of partitions
  // ---------------------------------------------------------------------

  function Total(c: seq<Counter>): nat {
    if c == [] then 0 else Total(c[..|c| - 1]) + c[|c| - 1].bytes
  }

  function Sum(sizes: seq<nat>): nat {
    if sizes == [] then 0 else Sum(sizes[..|sizes| - 1]) + sizes[|sizes| - 1]
  }

  ghost predicate Bounded(sizes: seq<nat>, largest: nat) {
    forall i :: 0 <= i < |sizes| ==> sizes[i] <= largest
  }

  /** No two counters are further apart than `largest`. */
  ghost predicate Level(c: seq<Counter>, largest: nat) {
    forall i, j :: 0 <= i < |c| && 0 <= j < |c| ==> c[i].bytes <= c[j].bytes + largest
  }

  lemma {:induction false} TotalUpdate(c: seq<Counter>, i: nat, x: Counter)
    requires i < |c|
    ensures Total(c[i := x]) == Total(c) - c[i].bytes + x.bytes
  {
    var n := |c| - 1;
    if i == n {
      assert c[i := x][..n] == c[..n];
    } else {
      TotalUpdate(c[..n], i, x);
      assert c[i := x][..n] == c[..n][i := x];
    }
  }

  lemma {:induction false} BelowTotal(c: seq<Counter>, i: nat)
    requires i < |c|
    ensures c[i].bytes <= Total(c)
  {
    if i < |c| - 1 {
      BelowTotal(c[..|c| - 1], i);
    }
  }

  lemma {:induction false} ZeroTotal(c: seq<Counter>)
    requires forall x :: x in c ==> x.bytes == 0
    ensures Total(c) == 0
  {
    if c != [] {
      ZeroTotal(c[..|c| - 1]);
    }
  }

  lemma AddKeeps(c: seq<Counter>, i: nat, size: nat, largest: nat)
    requires IsMinimum(c, i) && Level(c, largest) && size <= largest && Total(c) + size < TWO_64
    ensures Level(Add(c, i, size), largest) && Total(Add(c, i, size)) == Total(c) + size
    ensures Ascending(c) ==> Ascending(Add(c, i, size))
    ensures Partitions(Add(c, i, size)) == Partitions(c)
  {
    BelowTotal(c, i);
    hide Total;
    var d := Add(c, i, size);
    assert d[i].bytes == c[i].bytes + size;
    TotalUpdate(c, i, d[i]);
    forall x | x in Partitions(c)
      ensures x in Partitions(d)
    {
      var k :| 0 <= k < |c| && c[k].partition == x;
      assert d[k] in d;
    }
    forall x | x in Partitions(d)
      ensures x in Partitions(c)
    {
      var k :| 0 <= k < |d| && d[k].partition == x;
      assert c[k] in c;
    }
  }

  /**
   LeastBytes on a fixed list of distinct partitions: from the first call on
   the counters are those of exactly these partitions and are not rebuilt, they
   add up to all bytes routed, and no two differ by more than the largest message.
   */
  method Route(partitions: seq<int>, sizes: seq<nat>, largest: nat) returns (lb: LeastBytes, chosen: seq<int>)
    requires partitions != [] && Distinct(partitions) && Bounded(sizes, largest) && Sum(sizes) < TWO_64
    ensures fresh(lb) && |chosen| == |sizes|
    ensures forall k :: 0 <= k < |chosen| ==> chosen[k] in partitions
    ensures Total(lb.counters) == Sum(sizes) && Level(lb.counters, largest)
    ensures sizes != [] ==> Partitions(lb.counters) == Elements(partitions)
  {
    hide Tracked, Start, Sum, IsMinimum, Add, Bounded, Distinct, Elements, Partitions, Level, Total;
    lb := new LeastBytes();
    chosen := [];
    StartTracked(partitions, largest);
    for k := 0 to |sizes|
      invariant |chosen| == k && forall n :: 0 <= n < k ==> chosen[n] in partitions
      invariant Ascending(lb.counters)
      invariant Tracked(Start(lb.counters, partitions), partitions, Sum(sizes[..k]), largest)
      invariant k == 0 ==> lb.counters == []
      invariant k > 0 ==> Start(lb.counters, partitions) == lb.counters
    {
      SumStep(sizes, k);
      BoundedAt(sizes, k, largest);
      ghost var start := Start(lb.counters, partitions);
      ghost var i: nat;
      var p;
      p, i := lb.Balance(sizes[k], partitions);
      StepTracked(start, partitions, Sum(sizes[..k]), i, sizes[k], largest);
      chosen := chosen + [p];
    }
    assert sizes[..|sizes|] == sizes;
    Finished(lb.counters, partitions, sizes, largest);
  }

  ghost predicate Tracked(c: seq<Counter>, partitions: seq<int>, total: nat, largest: nat) {
    Ascending(c) && Partitions(c) == Elements(partitions) && Total(c) == total && Level(c, largest)
  }

  lemma BoundedAt(sizes: seq<nat>, k: nat, largest: nat)
    requires Bounded(sizes, largest) && k < |sizes|
    ensures sizes[k] <= largest
  {
  }

  lemma StepTracked(c: seq<Counter>, partitions: seq<int>, total: nat, i: nat, size: nat, largest: nat)
    requires Tracked(c, partitions, total, largest) && IsMinimum(c, i) && size <= largest && total + size < TWO_64
    ensures var d := Add(c, i, size);
            Tracked(d, partitions, total + size, largest) && Ascending(d) && Start(d, partitions) == d
    ensures c[i].partition in partitions
  {
    AddKeeps(c, i, size, largest);
    assert c[i] in c;
    assert c[i].partition in Partitions(c);
  }

  lemma StartTracked(partitions: seq<int>, largest: nat)
    requires Distinct(partitions) && partitions != []
    ensures Tracked(Start([], partitions), partitions, Sum([]), largest)
  {
    assert partitions[0] in Elements(partitions);
    ZerosSorted(partitions);
    ZeroTotal(Zeros(partitions));
  }

  lemma Finished(c: seq<Counter>, partitions: seq<int>, sizes: seq<nat>, largest: nat)
    requires if sizes == [] then c == []
             else Start(c, partitions) == c && Tracked(c, partitions, Sum(sizes), largest)
    ensures Total(c) == Sum(sizes) && Level(c, largest)
    ensures sizes != [] ==> Partitions(c) == Elements(partitions)
  {
  }

  lemma SumStep(sizes: seq<nat>, k: nat)
    requires k < |sizes|
    ensures Sum(sizes[..k + 1]) == Sum(sizes[..k]) + sizes[k] <= Sum(sizes)
  {
    assert sizes[..k + 1][..k] == sizes[..k];
    PrefixSum(sizes, k + 1);
  }

  lemma {:induction false} PrefixSum(sizes: seq<nat>, k: nat)
    requires k <= |sizes|
    ensures Sum(sizes[..k]) <= Sum(sizes)
    decreases |sizes|
  {
    if k < |sizes| {
      PrefixSum(sizes[..|sizes| - 1], k);
      assert sizes[..|sizes| - 1][..k] == sizes[..k];
    } else {
      assert sizes[..k] == sizes;
    }
  }

  /** Whatever the counters of the partitions `held` are, the selected partition is one of `list`. */
  ghost predicate SelectsListed(held: set<int>, list: seq<int>) {
    forall c, i: nat :: Ascending(c) && Partitions(c) == held && IsMinimum(Start(c, list), i) ==>
                     Start(c, list)[i].partition in list
  }

  /** LeastBytes never selects a partition it was not given exactly when the list did not shrink. */
  lemma SelectsListedIff(held: seq<int>, list: seq<int>)
    requires Distinct(list) && list != []
    requires forall i, j :: 0 <= i < j < |held| ==> held[i] < held[j]
    ensures SelectsListed(Elements(held), list) <==> !(Elements(list) < Elements(held))
  {
    if Elements(list) < Elements(held) {
      var gone: int :| gone in Elements(held) && gone !in Elements(list);
      StaleSelected(held, list, gone);
    } else {
      forall c, i: nat | Ascending(c) && Partitions(c) == Elements(held) && IsMinimum(Start(c, list), i)
        ensures Start(c, list)[i].partition in list
      {
        ZerosSorted(list);
        var start := Start(c, list);
        assert start[i] in start;
        assert start[i].partition in Partitions(start);
      }
    }
  }

  lemma StaleSelected(held: seq<int>, list: seq<int>, gone: int)
    requires forall i, j :: 0 <= i < j < |held| ==> held[i] < held[j]
    requires Elements(list) < Elements(held) && gone in held && gone !in list
    ensures !SelectsListed(Elements(held), list)
  {
    var c := seq(|held|, k requires 0 <= k < |held| => Counter(held[k], if held[k] == gone then 0 else 1));
    var i :| 0 <= i < |held| && held[i] == gone;
    assert Partitions(c) == Elements(held) by {
      forall k | 0 <= k < |held|
        ensures held[k] in Partitions(c)
      {
        assert c[k] in c;
      }
    }
    assert Start(c, list) == c && IsMinimum(c, i) && c[i].partition == gone;
  }

  // ---------------------------------------------------------------------
  // RoundRobin
  // ---------------------------------------------------------------------

  /** RoundRobin.Balance: `offset` is a uint64 that counts the calls. */
  function RoundRobinIndex(offset: nat, n: nat): (i: nat)
    requires n > 0
    ensures i < n
  {
    offset % n
  }

  class RoundRobin {
    var offset: nat

    constructor ()
      ensures offset == 0
    {
      offset := 0;
    }

    /** One of the partitions given, and the next one next time. */
    method Balance(partitions: seq<int>) returns (p: int)
      requires partitions != [] && offset < TWO_64
      modifies this
      ensures p == partitions[RoundRobinIndex(old(offset), |partitions|)] && p in partitions
      ensures offset < TWO_64 && offset == if old(offset) + 1 == TWO_64 then 0 else old(offset) + 1
    {
      var i := RoundRobinIndex(offset, |partitions|);
      offset := (offset + 1) % TWO_64;
      p := partitions[i];
    }
  }

  /** How often index `i` of `n` is chosen in `k` calls from offset `start`. */
  function Chosen(start: nat, k: nat, n: nat, i: nat): nat
    requires n > 0
  {
    if k == 0 then 0 else Chosen(start, k - 1, n, i) + if RoundRobinIndex(start + k - 1, n) == i then 1 else 0
  }

  /** The count of numbers below `m` that are `i` modulo `n`. */
  lemma {:induction false} ChosenClosed(start: nat, k: nat, n: nat, i: nat)
    requires i < n
    ensures Chosen(start, k, n, i) == (start + k + n - 1 - i) / n - (start + n - 1 - i) / n
  {
    if k > 0 {
      ChosenClosed(start, k - 1, n, i);
      NextQuotient(start + k - 1, n, i);
    }
  }

  lemma NextQuotient(x: nat, n: nat, i: nat)
    requires i < n
    ensures (x + 1 + n - 1 - i) / n - (x + n - 1 - i) / n == if x % n == i then 1 else 0
  {
    var r := x % n;
    if r < i {
      Shift(x, n, n - 1 - i);
      Shift(x, n, n - i);
    } else if r == i {
      Shift(x, n, n - 1 - i);
      Carry(x, n, n - i);
    } else {
      Carry(x, n, n - 1 - i);
      Carry(x, n, n - i);
    }
  }

  lemma Shift(x: nat, n: nat, d: nat)
    requires n > 0 && x % n + d < n
    ensures (x + d) / n == x / n
  {
    Quotient(x + d, n, x / n, x % n + d);
  }

  lemma Carry(x: nat, n: nat, d: nat)
    requires n > 0 && n <= x % n + d < 2 * n
    ensures (x + d) / n == x / n + 1
  {
    var q := x / n;
    assert (q + 1) * n == q * n + n;
    Quotient(x + d, n, q + 1, x % n + d - n);
  }

  lemma Quotient(x: nat, n: nat, q: nat, r: nat)
    requires n > 0 && r < n && x == q * n + r
    ensures x / n == q
  {
    var p, s := x / n, x % n;
    assert x == p * n + s;
    assert (q - p) * n == s - r;
    assert q - p >= 1 ==> (q - p) * n >= n;
    assert p - q >= 1 ==> (p - q) * n >= n;
  }

  lemma QuotientSum(a: nat, k: nat, n: nat)
    requires n > 0
    ensures k / n <= (a + k) / n - a / n <= k / n + 1
    ensures k % n == 0 ==> (a + k) / n - a / n == k / n
  {
    var s := k % n;
    var b := a + s;
    AddMultiple(b, k / n, n);
    assert a + k == b + k / n * n;
    if a % n + s < n {
      Shift(a, n, s);
    } else {
      Carry(a, n, s);
    }
  }

  lemma AddMultiple(b: nat, p: nat, n: nat)
    requires n > 0
    ensures (b + p * n) / n == b / n + p
  {
    var q, r := b / n, b % n;
    assert (q + p) * n == q * n + p * n;
    Quotient(b + p * n, n, q + p, r);
  }

  /** Over any number of calls without overflow of the offset, RoundRobin's choices differ by at most one. */
  lemma RoundRobinFair(start: nat, k: nat, n: nat, i: nat, j: nat)
    requires i < n && j < n && start + k <= TWO_64
    ensures Chosen(start, k, n, i) <= Chosen(start, k, n, j) + 1
    ensures k % n == 0 ==> Chosen(start, k, n, i) == k / n
  {
    ChosenClosed(start, k, n, i);
    ChosenClosed(start, k, n, j);
    QuotientSum(start + n - 1 - i, k, n);
    QuotientSum(start + n - 1 - j, k, n);
  }

  /** How often each partition was chosen is how often its index was. */
  lemma CountNext(choices: seq<int>, p: int, partitions: seq<int>, i: nat, j: nat)
    requires Distinct(partitions) && i < |partitions| && j < |partitions| && p == partitions[j]
    ensures multiset(choices + [p])[partitions[i]] == multiset(choices)[partitions[i]] + if i == j then 1 else 0
  {
    assert i != j ==> partitions[i] != partitions[j];
  }

  /**
   A run of Balance calls on one list that does not overflow the offset: any two
   partitions are chosen equally often, up to one, and exactly equally often
   when the calls go round a whole number of times.
   */
  method Spread(rr: RoundRobin, partitions: seq<int>, n: nat) returns (choices: seq<int>)
    requires partitions != [] && Distinct(partitions) && rr.offset < TWO_64 && rr.offset + n <= TWO_64
    modifies rr
    ensures |choices| == n
    ensures forall i, j :: 0 <= i < |partitions| && 0 <= j < |partitions| ==>
                             multiset(choices)[partitions[i]] <= multiset(choices)[partitions[j]] + 1
    ensures n % |partitions| == 0 ==>
              forall i :: 0 <= i < |partitions| ==> multiset(choices)[partitions[i]] == n / |partitions|
  {
    hide RoundRobinIndex, Distinct;
    choices := [];
    ghost var start := rr.offset;
    for k := 0 to n
      invariant |choices| == k && rr.offset < TWO_64 && (k < n ==> rr.offset == start + k)
      invariant forall i :: 0 <= i < |partitions| ==>
                              multiset(choices)[partitions[i]] == Chosen(start, k, |partitions|, i)
    {
      var p := rr.Balance(partitions);
      forall i | 0 <= i < |partitions|
        ensures multiset(choices + [p])[partitions[i]] == Chosen(start, k + 1, |partitions|, i)
      {
        CountNext(choices, p, partitions, i, RoundRobinIndex(start + k, |partitions|));
      }
      choices := choices + [p];
    }
    forall i, j | 0 <= i < |partitions| && 0 <= j < |partitions|
      ensures multiset(choices)[partitions[i]] <= multiset(choices)[partitions[j]] + 1
      ensures n % |partitions| == 0 ==> multiset(choices)[partitions[i]] == n / |partitions|
    {
      RoundRobinFair(start, n, |partitions|, i, j);
    }
  }
}
