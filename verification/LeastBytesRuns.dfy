/**
 LeastBytes inside the loop of the writer (balancer.go, writer.go): after some
 choices the counters of a list that was used first decide which partitions can
 be selected, even when the list has shrunk.
 */
module LeastBytesRuns {
  import opened Collections
  import opened Router
  import opened Balancer

  /** The next choice finds a partition without counter, so that the counters are rebuilt. */
  ghost predicate Rebuilds(events: seq<Event>)
    decreases |events|, 1
  {
    !(Elements(Listed(events)) <= Elements(Base(events)))
  }

  /** The list the counters were built for. */
  ghost function Base(events: seq<Event>): seq<int>
    decreases |events|, 0
  {
    if events == [] then []
    else
      var init := events[..|events| - 1];
      if Choice(events, |events| - 1) && Rebuilds(init) then Listed(init) else Base(init)
  }

  /** How many choices were made with these counters. */
  ghost function Age(events: seq<Event>): nat
    decreases |events|
  {
    if events == [] then 0
    else
      var init := events[..|events| - 1];
      if !Choice(events, |events| - 1) then Age(init) else if Rebuilds(init) then 1 else Age(init) + 1
  }

  /** No partition that is gone can have become the one with the least bytes. */
  ghost predicate OutOfReach(events: seq<Event>) {
    !Rebuilds(events) ==>
      forall j :: 0 <= j < |Base(events)| && Base(events)[j] !in Listed(events) ==> j > Age(events)
  }

  ghost predicate AllOutOfReach(events: seq<Event>) {
    forall i :: 0 <= i < |events| && Choice(events, i) ==> OutOfReach(events[..i])
  }

  /** Whatever the sizes of the messages, LeastBytes selects only what is listed. */
  ghost predicate NeverSelectsGone(events: seq<Event>) {
    forall other, sizes, cs :: SameButChoices(events, other) && ByLeastBytes(other, sizes, cs) ==> AllListed(other)
  }

  // ---------------------------------------------------------------------
  // The counters during a run
  // ---------------------------------------------------------------------

  /** The counters belong to the list, and those past the number of choices are still zero. */
  ghost predicate Shaped(c: seq<Counter>, base: seq<int>, age: nat) {
    && |c| == |base|
    && (forall j :: 0 <= j < |c| ==> c[j].partition == base[j])
    && (forall j :: age <= j < |c| ==> c[j].bytes == 0)
  }

  lemma {:induction false} InsertLast(c: seq<Counter>, p: int)
    requires forall j :: 0 <= j < |c| ==> c[j].partition < p
    ensures Insert(c, p) == c + [Counter(p, 0)]
    decreases |c|
  {
    if c != [] {
      InsertLast(c[1..], p);
    }
  }

  lemma {:induction false} ZerosAre(list: seq<int>)
    requires Sorted(list) && Distinct(list)
    ensures Shaped(Zeros(list), list, 0)
    decreases |list|
  {
    if list != [] {
      var n := |list| - 1;
      ZerosAre(list[..n]);
      forall j | 0 <= j < n
        ensures Zeros(list[..n])[j].partition < list[n]
      {
        assert list[j] <= list[n] && list[j] != list[n];
      }
      InsertLast(Zeros(list[..n]), list[n]);
    }
  }

  lemma ShapedPartitions(c: seq<Counter>, base: seq<int>, age: nat)
    requires Shaped(c, base, age)
    ensures Balancer.Partitions(c) == Elements(base)
  {
    forall p | p in base
      ensures p in Balancer.Partitions(c)
    {
      var j :| 0 <= j < |base| && base[j] == p;
      assert c[j] in c;
    }
  }

  /** The counters a choice works on. */
  lemma Starts(c: seq<Counter>, events: seq<Event>)
    requires ListsOk(events) && Shaped(c, Base(events), Age(events))
    ensures Shaped(Start(c, Listed(events)), if Rebuilds(events) then Listed(events) else Base(events),
                   if Rebuilds(events) then 0 else Age(events))
  {
    hide Base, Age, Listed, Zeros;
    ShapedPartitions(c, Base(events), Age(events));
    ListedOk(events);
    ZerosAre(Listed(events));
  }

  /** Only the positions up to the number of choices so far can be the first of the smallest. */
  lemma Reach(c: seq<Counter>, base: seq<int>, age: nat, k: nat, size: nat)
    requires Shaped(c, base, age) && IsMinimum(c, k)
    ensures k <= age && Shaped(Add(c, k, size), base, age + 1)
  {
    assert age < |c| ==> c[age].bytes == 0;
  }

  lemma Grown(events: seq<Event>, i: nat)
    requires i < |events|
    ensures Base(events[..i + 1])
         == if Choice(events, i) && Rebuilds(events[..i]) then Listed(events[..i]) else Base(events[..i])
    ensures Age(events[..i + 1])
         == if !Choice(events, i) then Age(events[..i]) else if Rebuilds(events[..i]) then 1 else Age(events[..i]) + 1
  {
    hide Listed;
    var next := events[..i + 1];
    assert next[..i] == events[..i] && next[i] == events[i];
    assert Choice(next, i) <==> Choice(events, i);
  }

  lemma {:induction false} CountersShaped(events: seq<Event>, sizes: seq<nat>, cs: seq<seq<Counter>>, i: nat)
    requires ListsOk(events) && ByLeastBytes(events, sizes, cs) && i <= |events|
    ensures Shaped(cs[i], Base(events[..i]), Age(events[..i]))
    decreases i
  {
    hide Base, Age, Rebuilds, Listed, Zeros;
    if i == 0 {
      Nothing();
      assert events[..0] == [];
    } else {
      CountersShaped(events, sizes, cs, i - 1);
      Grown(events, i - 1);
      var init := events[..i - 1];
      if Choice(events, i - 1) {
        Starts(cs[i - 1], init);
        var start := Start(cs[i - 1], Listed(init));
        var k: nat :| IsMinimum(start, k) && cs[i] == Add(start, k, sizes[i - 1]);
        Reach(start, if Rebuilds(init) then Listed(init) else Base(init), if Rebuilds(init) then 0 else Age(init), k,
              sizes[i - 1]);
      }
    }
  }

  lemma Nothing()
    ensures Base([]) == [] && Age([]) == 0 && Listed([]) == []
  {
  }

  lemma ListsPrefix(events: seq<Event>, i: nat)
    requires ListsOk(events) && i <= |events|
    ensures ListsOk(events[..i])
  {
  }

  lemma SelectedListed(events: seq<Event>, sizes: seq<nat>, cs: seq<seq<Counter>>, i: nat)
    requires ListsOk(events) && ByLeastBytes(events, sizes, cs) && i < |events| && Choice(events, i)
    requires OutOfReach(events[..i])
    ensures events[i].selected in Listed(events[..i])
  {
    hide Base, Age, Rebuilds, Listed, Zeros, IsMinimum, Shaped, Start, ListsOk, OutOfReach, Balances;
    var init := events[..i];
    CountersShaped(events, sizes, cs, i);
    ListsPrefix(events, i);
    Starts(cs[i], init);
    var start := Start(cs[i], Listed(init));
    assert Balances(cs[i], Listed(init), sizes[i], events[i].selected, cs[i + 1]);
    var k := Smallest(cs[i], Listed(init), sizes[i], events[i].selected, cs[i + 1]);
    FirstListed(init, start, k);
  }

  lemma Smallest(c: seq<Counter>, list: seq<int>, size: nat, selected: int, d: seq<Counter>) returns (k: nat)
    requires Balances(c, list, size, selected, d)
    ensures IsMinimum(Start(c, list), k) && k < |Start(c, list)| && selected == Start(c, list)[k].partition
  {
    hide Start;
    k :| IsMinimum(Start(c, list), k) && selected == Start(c, list)[k].partition;
  }

  lemma FirstListed(events: seq<Event>, c: seq<Counter>, k: nat)
    requires OutOfReach(events) && Listed(events) != [] && IsMinimum(c, k)
    requires Shaped(c, if Rebuilds(events) then Listed(events) else Base(events),
                    if Rebuilds(events) then 0 else Age(events))
    ensures c[k].partition in Listed(events)
  {
    hide Base, Age, Rebuilds, Listed;
    Reach(c, if Rebuilds(events) then Listed(events) else Base(events),
          if Rebuilds(events) then 0 else Age(events), k, 0);
  }

  // ---------------------------------------------------------------------
  // Sizes that lead to a partition that is gone
  // ---------------------------------------------------------------------

  /** The first of the smallest counters. */
  ghost function Least(c: seq<Counter>): (k: nat)
    requires c != []
    ensures IsMinimum(c, k)
    decreases |c|
  {
    if |c| == 1 then 0
    else
      var n := |c| - 1;
      var k := Least(c[..n]);
      if c[n].bytes < c[k].bytes then n else k
  }

  /** The number of choices already made with the counters the next one uses. */
  ghost function Turn(events: seq<Event>): nat {
    if Rebuilds(events) then 0 else Age(events)
  }

  /** Messages of one byte until the j-th position is the first without any, then empty ones. */
  ghost function SizeFor(events: seq<Event>, j: nat): nat {
    if Turn(events) < j then 1 else 0
  }

  ghost function Working(events: seq<Event>, j: nat): seq<Counter>
    decreases |events|, 1
  {
    Start(Counters(events, j), Listed(events))
  }

  ghost function Counters(events: seq<Event>, j: nat): seq<Counter>
    decreases |events|, 0
  {
    if events == [] then []
    else
      var init := events[..|events| - 1];
      if Choice(events, |events| - 1) && Working(init, j) != [] then
        Add(Working(init, j), Least(Working(init, j)), SizeFor(init, j))
      else Counters(init, j)
  }

  /** The first `n` counters are one, the others zero. */
  ghost predicate Steps(c: seq<Counter>, n: nat) {
    forall k :: 0 <= k < |c| ==> c[k].bytes == if k < n then 1 else 0
  }

  function Min(a: nat, b: nat): nat {
    if a < b then a else b
  }

  /** The counters these sizes lead to. */
  ghost predicate Prepared(events: seq<Event>, j: nat) {
    var c := Counters(events, j);
    Shaped(c, Base(events), Age(events)) && (j < |c| ==> Steps(c, Min(Age(events), j)))
  }

  lemma WorkingIs(events: seq<Event>, j: nat)
    requires ListsOk(events) && Prepared(events, j) && Listed(events) != []
    ensures var c := Working(events, j);
            && Shaped(c, if Rebuilds(events) then Listed(events) else Base(events), Turn(events))
            && c != [] && (j < |c| ==> Steps(c, Min(Turn(events), j)))
  {
    hide Base, Age, Listed, Zeros, Counters;
    Starts(Counters(events, j), events);
    assert Listed(events)[0] in Elements(Listed(events));
    if Rebuilds(events) {
      ShapedPartitions(Counters(events, j), Base(events), Age(events));
    }
  }

  lemma FirstZero(c: seq<Counter>, n: nat)
    requires n < |c| && Steps(c, n)
    ensures Least(c) == n
  {
    assert c[n].bytes == 0;
    assert forall k :: 0 <= k < n ==> c[k].bytes == 1;
  }

  lemma OneStep(c: seq<Counter>, turn: nat, j: nat)
    requires j < |c| && Steps(c, Min(turn, j))
    ensures Steps(Add(c, Least(c), if turn < j then 1 else 0), Min(turn + 1, j))
  {
    FirstZero(c, Min(turn, j));
  }

  lemma {:induction false} AllPrepared(events: seq<Event>, j: nat, i: nat)
    requires ListsOk(events) && i <= |events|
    ensures Prepared(events[..i], j)
    decreases i
  {
    hide Base, Age, Rebuilds, Listed, Zeros, Steps, Shaped;
    if i == 0 {
      assert events[..0] == [];
      Nothing();
      assert Shaped([], [], 0) by {
        NothingShaped();
      }
    } else {
      var init, now := events[..i - 1], events[..i];
      AllPrepared(events, j, i - 1);
      Grown(events, i - 1);
      assert now[..i - 1] == init && now[i - 1] == events[i - 1];
      assert Choice(now, i - 1) <==> Choice(events, i - 1);
      if Choice(events, i - 1) {
        ListsPrefix(events, i - 1);
        WorkingIs(init, j);
        var c := Working(init, j);
        Reach(c, if Rebuilds(init) then Listed(init) else Base(init), Turn(init), Least(c), SizeFor(init, j));
        if j < |c| {
          OneStep(c, Turn(init), j);
        }
      }
    }
  }

  lemma NothingShaped()
    ensures Shaped([], [], 0)
  {
  }

  /** The run that makes these choices. */
  ghost function Choosing(events: seq<Event>, j: nat): (r: seq<Event>)
    ensures |r| == |events|
  {
    seq(|events|, i requires 0 <= i < |events| =>
      if Choice(events, i) && Working(events[..i], j) != [] then
        Message(events[i].msg, Working(events[..i], j)[Least(Working(events[..i], j))].partition)
      else events[i])
  }

  lemma ChoosesLeast(events: seq<Event>, j: nat, i: nat)
    requires ListsOk(events) && i < |events|
    ensures var other := Choosing(events, j);
            if Choice(events, i) then
              Balances(Counters(events[..i], j), Listed(events[..i]), SizeFor(events[..i], j), other[i].selected,
                       Counters(events[..i + 1], j))
            else Counters(events[..i + 1], j) == Counters(events[..i], j)
  {
    hide Listed, Zeros, Start, Base, Age, Rebuilds, Prepared;
    var init, now := events[..i], events[..i + 1];
    assert now[..i] == init && now[i] == events[i];
    assert Choice(now, i) <==> Choice(events, i);
    if Choice(events, i) {
      AllPrepared(events, j, i);
      ListsPrefix(events, i);
      WorkingIs(init, j);
      var k := Least(Working(init, j));
      assert IsMinimum(Start(Counters(init, j), Listed(init)), k);
    }
  }

  lemma SelectsGone(events: seq<Event>, i: nat, j: nat)
    requires ListsOk(events) && i < |events| && Choice(events, i) && !Rebuilds(events[..i])
    requires j < |Base(events[..i])| && j <= Age(events[..i]) && Base(events[..i])[j] !in Listed(events[..i])
    ensures !NeverSelectsGone(events)
  {
    hide Listed, Zeros, Start, Base, Age, Rebuilds, Counters, Working, Balances, SizeFor;
    var other := Choosing(events, j);
    var sizes := seq(|events|, p requires 0 <= p < |events| => SizeFor(events[..p], j));
    var cs := seq(|events| + 1, p requires 0 <= p <= |events| => Counters(events[..p], j));
    assert SameButChoices(events, other);
    assert cs[0] == [] by {
      assert events[..0] == [];
      NoCounters(j);
    }
    forall p | 0 <= p < |events|
      ensures if Choice(other, p) then Balances(cs[p], Listed(other[..p]), sizes[p], other[p].selected, cs[p + 1])
              else cs[p + 1] == cs[p]
    {
      SameChoice(events, other, p);
      ChoosesLeast(events, j, p);
    }
    assert ByLeastBytes(other, sizes, cs);
    SameChoice(events, other, i);
    Lands(events, i, j);
    assert other[i].selected !in Listed(other[..i]);
  }

  lemma NoCounters(j: nat)
    ensures Counters([], j) == []
  {
  }

  lemma Lands(events: seq<Event>, i: nat, j: nat)
    requires ListsOk(events) && i < |events| && Choice(events, i) && !Rebuilds(events[..i])
    requires j < |Base(events[..i])| && j <= Age(events[..i])
    ensures Choosing(events, j)[i].selected == Base(events[..i])[j]
  {
    hide Listed, Zeros, Start, Base, Age, Rebuilds, Counters, Working, Prepared;
    AllPrepared(events, j, i);
    ListsPrefix(events, i);
    WorkingIs(events[..i], j);
    FirstZero(Working(events[..i], j), j);
  }

  /**
   With LeastBytes, whatever the sizes of the messages, a run selects only
   partitions that are listed exactly when at each choice from a list that has
   shrunk the partitions that are gone lie behind as many positions of the
   counters as there were choices since these were built.
   */
  lemma LeastBytesIff(events: seq<Event>)
    requires ListsOk(events)
    ensures NeverSelectsGone(events) <==> AllOutOfReach(events)
  {
    hide Listed, Base, Age, Rebuilds, NeverSelectsGone, ByLeastBytes;
    if i :| 0 <= i < |events| && Choice(events, i) && !OutOfReach(events[..i]) {
      var j :| 0 <= j < |Base(events[..i])| && Base(events[..i])[j] !in Listed(events[..i]) && j <= Age(events[..i]);
      SelectsGone(events, i, j);
    } else {
      NeverGone(events);
    }
  }

  lemma NeverGone(events: seq<Event>)
    requires ListsOk(events) && AllOutOfReach(events)
    ensures NeverSelectsGone(events)
  {
    hide Listed, Base, Age, Rebuilds, ByLeastBytes, OutOfReach;
    forall other: seq<Event>, sizes: seq<nat>, cs: seq<seq<Counter>>
        | SameButChoices(events, other) && ByLeastBytes(other, sizes, cs)
      ensures AllListed(other)
    {
      forall i | 0 <= i < |other| && Choice(other, i)
        ensures other[i].selected in Listed(other[..i])
      {
        SameChoice(events, other, i);
        SameBase(events[..i], other[..i]);
        SameLists(events, other);
        SelectedListed(other, sizes, cs, i);
      }
    }
  }

  lemma SameLists(a: seq<Event>, b: seq<Event>)
    requires SameButChoices(a, b) && ListsOk(a)
    ensures ListsOk(b)
  {
    forall i | 0 <= i < |b| && b[i].Partitions?
      ensures b[i] == a[i]
    {
    }
  }

  lemma {:induction false} SameBase(a: seq<Event>, b: seq<Event>)
    requires SameButChoices(a, b)
    ensures Base(a) == Base(b) && Age(a) == Age(b) && Listed(a) == Listed(b) && (OutOfReach(a) <==> OutOfReach(b))
    decreases |a|
  {
    hide Listed;
    SameListed(a, b);
    if a != [] {
      var n := |a| - 1;
      SameBase(a[..n], b[..n]);
      SameChoice(a, b, n);
    }
  }
}
