/**
 The router of the producer (writer.go, Writer.run): one partition writer per
 partition, opened and closed as the list of partitions changes, and every
 message handed to one of them.
 */
module Router {
  import opened Collections
  import Balancer

  // ---------------------------------------------------------------------
  // diffp
  // ---------------------------------------------------------------------

  /** sort.SearchInts: the first index at which `x` could be. */
  method SearchInts(a: seq<int>, x: int) returns (i: nat)
    requires Sorted(a)
    ensures i <= |a|
    ensures forall k :: 0 <= k < i ==> a[k] < x
    ensures forall k :: i <= k < |a| ==> x <= a[k]
  {
    i := 0;
    var j := |a|;
    while i < j
      invariant i <= j <= |a|
      invariant forall k :: 0 <= k < i ==> a[k] < x
      invariant forall k :: j <= k < |a| ==> x <= a[k]
    {
      var h := (i + j) / 2;
      if a[h] < x {
        i := h + 1;
      } else {
        j := h;
      }
    }
  }

  /** The elements of `new` that are not in `old`, in order. */
  function Missing(new': seq<int>, old': set<int>): seq<int> {
    if new' == [] then []
    else Missing(new'[..|new'| - 1], old') + if new'[|new'| - 1] in old' then [] else [new'[|new'| - 1]]
  }

  /** diffp on a sorted list is set difference. */
  method Diffp(new': seq<int>, old': seq<int>) returns (diff: seq<int>)
    requires Sorted(old')
    ensures diff == Missing(new', Elements(old'))
  {
    diff := [];
    for n := 0 to |new'|
      invariant diff == Missing(new'[..n], Elements(old'))
    {
      var p := new'[n];
      var i := SearchInts(old', p);
      assert new'[..n + 1][..n] == new'[..n];
      assert (i < |old'| && old'[i] == p) <==> p in old';
      if i == |old'| || old'[i] != p {
        diff := diff + [p];
      }
    }
    assert new'[..|new'|] == new';
  }

  lemma {:induction false} MissingElements(new': seq<int>, old': set<int>)
    ensures Elements(Missing(new', old')) == Elements(new') - old'
    ensures Distinct(new') ==> Distinct(Missing(new', old'))
  {
    if new' != [] {
      var init, last := new'[..|new'| - 1], new'[|new'| - 1];
      MissingElements(init, old');
      assert Elements(new') == Elements(init) + {last};
      var m := Missing(init, old');
      assert Distinct(new') ==> last !in init;
      assert forall x :: x in m ==> x in Elements(m);
      if last !in old' {
        assert Missing(new', old') == m + [last];
        assert Elements(m + [last]) == Elements(m) + {last};
      } else {
        assert Missing(new', old') == m;
        assert Elements(init) + {last} - old' == Elements(init) - old';
      }
    }
  }

  // ---------------------------------------------------------------------
  // Traces
  // ---------------------------------------------------------------------

  /** What the router does, with a number for each partition writer it opens. */
  datatype Action = Open(partition: int, id: nat) | Close(id: nat) | Deliver(id: nat, msg: nat) | Reject(msg: nat)

  function EverOpened(log: seq<Action>): set<nat> {
    if log == [] then {}
    else EverOpened(log[..|log| - 1]) + if log[|log| - 1].Open? then {log[|log| - 1].id} else {}
  }

  function NowOpen(log: seq<Action>): set<nat> {
    if log == [] then {}
    else
      var before, a := NowOpen(log[..|log| - 1]), log[|log| - 1];
      if a.Open? then before + {a.id} else if a.Close? then before - {a.id} else before
  }

  /** Writers are opened once, closed only while open, and given messages only while open. */
  ghost predicate Safe(log: seq<Action>) {
    log != [] ==>
      var before, a := log[..|log| - 1], log[|log| - 1];
      && Safe(before)
      && (a.Open? ==> a.id !in EverOpened(before))
      && ((a.Close? || a.Deliver?) ==> a.id in NowOpen(before))
  }

  lemma Extend(log: seq<Action>, a: Action)
    ensures Safe(log + [a]) <==> && Safe(log) && (a.Open? ==> a.id !in EverOpened(log))
                                 && ((a.Close? || a.Deliver?) ==> a.id in NowOpen(log))
    ensures EverOpened(log + [a]) == EverOpened(log) + if a.Open? then {a.id} else {}
    ensures NowOpen(log + [a]) == if a.Open? then NowOpen(log) + {a.id} else if a.Close? then NowOpen(log) - {a.id}
            else NowOpen(log)
    ensures Handled(log + [a]) == Handled(log) + if a.Deliver? || a.Reject? then [a.msg] else []
  {
    assert (log + [a])[..|log|] == log;
  }

  /** The messages dealt with, in order. */
  function Handled(log: seq<Action>): seq<nat> {
    if log == [] then []
    else
      var a := log[|log| - 1];
      Handled(log[..|log| - 1]) + if a.Deliver? || a.Reject? then [a.msg] else []
  }

  function CountClose(log: seq<Action>, id: nat): nat {
    if log == [] then 0
    else CountClose(log[..|log| - 1], id) + if log[|log| - 1] == Close(id) then 1 else 0
  }

  /** In a safe trace a writer that was opened has been closed exactly once, or not at all while it is open. */
  lemma {:induction false} ClosedOnce(log: seq<Action>, id: nat)
    requires Safe(log)
    ensures NowOpen(log) <= EverOpened(log)
    ensures CountClose(log, id) == if id in EverOpened(log) - NowOpen(log) then 1 else 0
  {
    if log != [] {
      ClosedOnce(log[..|log| - 1], id);
    }
  }

  ghost function Ids(writers: map<int, nat>): set<nat> {
    set p | p in writers :: writers[p]
  }

  lemma InsertedId(m: map<int, nat>, p: int, id: nat)
    requires p !in m
    ensures Ids(m[p := id]) == Ids(m) + {id}
  {
    var n := m[p := id];
    assert forall q :: q in m ==> n[q] == m[q];
    forall x | x in Ids(m) + {id}
      ensures x in Ids(n)
    {
      if x == id {
        assert n[p] == x;
      } else {
        var q :| q in m && m[q] == x;
        assert q in n && n[q] == x;
      }
    }
  }

  lemma RemovedId(m: map<int, nat>, p: int)
    requires p in m && forall q :: q in m && q != p ==> m[q] != m[p]
    ensures Ids(m - {p}) == Ids(m) - {m[p]}
  {
    var n := m - {p};
    forall x | x in Ids(m) - {m[p]}
      ensures x in Ids(n)
    {
      var q :| q in m && m[q] == x;
      assert q in n && n[q] == x;
    }
  }

  // ---------------------------------------------------------------------
  // The router
  // ---------------------------------------------------------------------

  class Router {
    var writers: map<int, nat>
    var partitions: seq<int>
    var next: nat
    ghost var log: seq<Action>

    ghost predicate Valid()
      reads this
    {
      && Sorted(partitions) && Distinct(partitions)
      && writers.Keys == Elements(partitions)
      && Consistent()
    }

    /** The writer map holds exactly the writers that are open. */
    ghost predicate Consistent()
      reads this
    {
      && Safe(log)
      && (forall p, q :: p in writers && q in writers && p != q ==> writers[p] != writers[q])
      && Ids(writers) == NowOpen(log)
      && (forall id :: id in EverOpened(log) ==> id < next)
      && NowOpen(log) <= EverOpened(log)
    }

    constructor ()
      ensures Valid() && log == [] && partitions == []
    {
      writers, partitions, next, log := map[], [], 0, [];
    }

    method OpenWriter(p: int)
      requires Consistent() && p !in writers
      modifies this`writers, this`next, this`log
      ensures Consistent() && log == old(log) + [Open(p, old(next))] && Handled(log) == old(Handled(log))
      ensures writers == old(writers)[p := old(next)]
    {
      hide Safe, EverOpened, NowOpen, Handled;
      Extend(log, Open(p, next));
      log := log + [Open(p, next)];
      ghost var was := writers;
      writers := writers[p := next];
      next := next + 1;
      InsertedId(was, p, writers[p]);
    }

    method CloseWriter(p: int)
      requires Consistent() && p in writers
      modifies this`writers, this`log
      ensures Consistent() && log == old(log) + [Close(old(writers)[p])] && Handled(log) == old(Handled(log))
      ensures writers == old(writers) - {p}
    {
      assert writers[p] in Ids(writers);
      Extend(log, Close(writers[p]));
      log := log + [Close(writers[p])];
      ghost var was := writers;
      writers := writers - {p};
      RemovedId(was, p);
    }

    /** The rebalance step: `found` is what w.partitions() returns, sorted, or None when it failed. */
    method Rebalance(found: Option<seq<int>>)
      requires Valid()
      requires found.Some? ==> Sorted(found.value) && Distinct(found.value)
      modifies this`writers, this`partitions, this`next, this`log
      ensures Valid()
      ensures Handled(log) == old(Handled(log))
      ensures partitions == if found.Some? then found.value else old(partitions)
      ensures found.None? ==> log == old(log) && writers == old(writers)
      ensures forall p :: p in old(writers) && p in writers ==> writers[p] == old(writers)[p]
    {
      if found.None? {
        return;
      }
      var gone := Diffp(partitions, found.value);
      MissingElements(partitions, Elements(found.value));
      CloseAll(gone);
      var added := Diffp(found.value, partitions);
      MissingElements(found.value, Elements(partitions));
      OpenAll(added);
      partitions := found.value;
    }

    method CloseAll(gone: seq<int>)
      requires Consistent() && Distinct(gone) && Elements(gone) <= writers.Keys
      modifies this`writers, this`log
      ensures Consistent() && writers == old(writers) - Elements(gone) && Handled(log) == old(Handled(log))
    {
      for i := 0 to |gone|
        invariant Consistent() && writers == old(writers) - Elements(gone[..i]) && Handled(log) == old(Handled(log))
      {
        assert gone[i] in Elements(gone);
        assert gone[i] !in Elements(gone[..i]);
        assert Elements(gone[..i + 1]) == Elements(gone[..i]) + {gone[i]};
        CloseWriter(gone[i]);
      }
      assert gone[..|gone|] == gone;
    }

    method OpenAll(added: seq<int>)
      requires Consistent() && Distinct(added) && Elements(added) !! writers.Keys
      modifies this`writers, this`next, this`log
      ensures Consistent() && writers.Keys == old(writers).Keys + Elements(added) && Handled(log) == old(Handled(log))
      ensures forall p :: p in old(writers) ==> writers[p] == old(writers)[p]
    {
      for i := 0 to |added|
        invariant Consistent() && writers.Keys == old(writers).Keys + Elements(added[..i])
                  && Handled(log) == old(Handled(log))
        invariant forall p :: p in old(writers) ==> writers[p] == old(writers)[p]
      {
        assert added[i] in Elements(added);
        assert added[i] !in Elements(added[..i]);
        assert Elements(added[..i + 1]) == Elements(added[..i]) + {added[i]};
        OpenWriter(added[i]);
      }
      assert added[..|added|] == added;
    }

    /**
     A message goes to the writer of the partition that the balancer selected, or
     back to its caller when there is no partition; a selection without a writer
     crashes the router.
     */
    method Route(msg: nat, selected: int) returns (crashed: bool)
      requires Valid()
      modifies this`log
      ensures Valid() && (crashed <==> partitions != [] && selected !in partitions)
      ensures partitions == [] ==> log == old(log) + [Reject(msg)]
      ensures selected in partitions ==> selected in writers && log == old(log) + [Deliver(writers[selected], msg)]
      ensures crashed ==> log == old(log)
      ensures Handled(log) == if crashed then old(Handled(log)) else old(Handled(log)) + [msg]
    {
      crashed := false;
      assert selected in Elements(partitions) <==> selected in partitions;
      if |partitions| == 0 {
        Extend(log, Reject(msg));
        log := log + [Reject(msg)];
      } else if selected in writers {
        assert writers[selected] in Ids(writers);
        Extend(log, Deliver(writers[selected], msg));
        log := log + [Deliver(writers[selected], msg)];
      } else {
        crashed := true;
      }
    }

    /** The message channel was closed: every writer is closed, in whatever order the map yields them. */
    method Shutdown()
      requires Valid()
      modifies this`writers, this`log
      ensures Consistent() && writers == map[] && NowOpen(log) == {} && Handled(log) == old(Handled(log))
      ensures forall id :: id in EverOpened(log) ==> CountClose(log, id) == 1
    {
      while writers != map[]
        invariant Consistent() && Handled(log) == old(Handled(log))
        decreases writers.Keys
      {
        var p :| p in writers;
        CloseWriter(p);
      }
      forall id | id in EverOpened(log)
        ensures CountClose(log, id) == 1
      {
        ClosedOnce(log, id);
      }
    }

    /**
     Writer.run over a run of events, to the end or to a crash.  It never crashes
     exactly when every selection is in the list current at that moment; then
     every message was delivered to an open writer or sent back, in order, and
     every writer ever opened is closed exactly once.
     */
    method Run(events: seq<Event>) returns (crashed: bool)
      requires Valid() && log == [] && partitions == []
      requires ListsOk(events)
      modifies this
      ensures Safe(log) && (!crashed <==> AllListed(events))
      ensures !crashed ==> NowOpen(log) == {} && Handled(log) == Messages(events)
      ensures !crashed ==> forall id :: id in EverOpened(log) ==> CountClose(log, id) == 1
    {
      hide Safe, EverOpened, NowOpen, Handled, Messages, ListsOk;
      crashed := false;
      NoMessages();
      for i := 0 to |events|
        invariant Valid() && Handled(log) == Messages(events[..i]) && partitions == Listed(events[..i])
        invariant AllListed(events[..i])
      {
        Next(events, i);
        match events[i] {
          case Partitions(found) =>
            FoundOk(events, i);
            Rebalance(found);
          case Message(m, selected) =>
            crashed := Route(m, selected);
            if crashed {
              NotListed(events, i);
              return;
            }
        }
      }
      assert events[..|events|] == events;
      Shutdown();
    }
  }

  /** What the router meets: a list of partitions or a failure to get one, and messages with the balancer's choice. */
  datatype Event = Partitions(found: Option<seq<int>>) | Message(msg: nat, selected: int)

  function Messages(events: seq<Event>): seq<nat> {
    if events == [] then []
    else
      var e := events[|events| - 1];
      Messages(events[..|events| - 1]) + if e.Message? then [e.msg] else []
  }

  /** The partitions after some events. */
  function Listed(events: seq<Event>): seq<int> {
    if events == [] then []
    else
      var e := events[|events| - 1];
      if e.Partitions? && e.found.Some? then e.found.value else Listed(events[..|events| - 1])
  }

  /** A broker lists its partitions without repetition, and the writer sorts them. */
  ghost predicate ListsOk(events: seq<Event>) {
    forall i :: 0 <= i < |events| && events[i].Partitions? && events[i].found.Some? ==>
                  Sorted(events[i].found.value) && Distinct(events[i].found.value)
  }

  /** Event `i` is a message for which there is a choice to make. */
  ghost predicate Choice(events: seq<Event>, i: nat)
    requires i < |events|
  {
    events[i].Message? && Listed(events[..i]) != []
  }

  /** Every choice is one of the partitions listed at that moment. */
  ghost predicate AllListed(events: seq<Event>) {
    forall i :: 0 <= i < |events| && Choice(events, i) ==> events[i].selected in Listed(events[..i])
  }

  lemma NoMessages()
    ensures Messages([]) == [] && Handled([]) == [] && Listed([]) == []
  {
  }

  lemma FoundOk(events: seq<Event>, i: nat)
    requires ListsOk(events) && i < |events| && events[i].Partitions?
    ensures events[i].found.Some? ==> Sorted(events[i].found.value) && Distinct(events[i].found.value)
  {
  }

  lemma Next(events: seq<Event>, i: nat)
    requires i < |events|
    ensures Messages(events[..i + 1])
         == if events[i].Message? then Messages(events[..i]) + [events[i].msg] else Messages(events[..i])
    ensures Listed(events[..i + 1])
         == if events[i].Partitions? && events[i].found.Some? then events[i].found.value else Listed(events[..i])
    ensures AllListed(events[..i + 1])
            <==> AllListed(events[..i]) && (Choice(events, i) ==> events[i].selected in Listed(events[..i]))
  {
    hide Listed, Messages;
    var now, next := events[..i], events[..i + 1];
    OneMore(next);
    assert next[..i] == now;
    forall k | 0 <= k < i
      ensures next[..k] == now[..k] && next[k] == now[k]
    {
    }
    assert next[i] == events[i];
  }

  lemma OneMore(events: seq<Event>)
    requires events != []
    ensures var init, e := events[..|events| - 1], events[|events| - 1];
            && Messages(events) == (if e.Message? then Messages(init) + [e.msg] else Messages(init))
            && Listed(events) == (if e.Partitions? && e.found.Some? then e.found.value else Listed(init))
  {
  }

  lemma NotListed(events: seq<Event>, i: nat)
    requires i < |events| && Choice(events, i) && events[i].selected !in Listed(events[..i])
    ensures !AllListed(events)
  {
  }

  // ---------------------------------------------------------------------
  // Hash
  // ---------------------------------------------------------------------

  /** Hash.Balance for a keyed message: an index, used as a partition number. */
  function HashIndex(sum32: nat, n: nat): (i: nat)
    requires n > 0
    ensures i < n
  {
    sum32 % n
  }

  /** Hash never selects a partition without a writer exactly when the partitions are 0 .. n-1. */
  lemma HashRoutesIff(partitions: seq<int>)
    requires 0 < |partitions| <= 0x1_0000_0000 && Sorted(partitions) && Distinct(partitions)
    ensures (forall h: nat :: h < 0x1_0000_0000 ==> HashIndex(h, |partitions|) in partitions)
            <==> (forall i :: 0 <= i < |partitions| ==> partitions[i] == i)
  {
    hide HashIndex;
    var n := |partitions|;
    if forall h: nat :: h < 0x1_0000_0000 ==> HashIndex(h, n) in partitions {
      forall h: nat | h < n
        ensures h in partitions
      {
        SmallIndex(h, n);
      }
      AllBelow(partitions);
    } else {
      var h: nat :| h < 0x1_0000_0000 && HashIndex(h, n) !in partitions;
      assert partitions[HashIndex(h, n)] != HashIndex(h, n);
    }
  }

  lemma SmallIndex(h: nat, n: nat)
    requires h < n
    ensures HashIndex(h, n) == h
  {
  }

  /** A sorted list of n distinct numbers that contains 0 .. n-1 is 0 .. n-1. */
  lemma AllBelow(a: seq<int>)
    requires Sorted(a) && Distinct(a) && forall h: nat :: h < |a| ==> h in a
    ensures forall i :: 0 <= i < |a| ==> a[i] == i
  {
    if |a| > 0 {
      var zero: nat, n: nat := 0, |a| - 1;
      assert zero in a && n in a;
      var k :| 0 <= k < |a| && a[k] == zero;
      Climb(a, k);
      var m :| 0 <= m < |a| && a[m] == n;
      assert k == 0;
    }
  }

  /** From the position of 0 the list counts up one by one. */
  lemma {:induction false} Climb(a: seq<int>, k: nat)
    requires Sorted(a) && Distinct(a) && (forall h: nat :: h < |a| ==> h in a) && k < |a| && a[k] == 0
    ensures forall i :: k <= i < |a| ==> a[i] == i - k
  {
    var i := k;
    while i < |a|
      invariant k <= i <= |a|
      invariant forall j :: k <= j < i ==> a[j] == j - k
    {
      if i > k {
        assert (i - k) in a;
        var m :| 0 <= m < |a| && a[m] == i - k;
        assert m >= i;
        assert a[i] > a[i - 1];
      }
      i := i + 1;
    }
  }

  // ---------------------------------------------------------------------
  // The balancers in the loop
  // ---------------------------------------------------------------------

  /** How many choices were made. */
  ghost function Choices(events: seq<Event>): nat {
    if events == [] then 0
    else Choices(events[..|events| - 1]) + if Choice(events, |events| - 1) then 1 else 0
  }

  /** The choices of RoundRobin, whose counter starts at `start`. */
  ghost predicate ByRoundRobin(events: seq<Event>, start: nat) {
    forall i :: 0 <= i < |events| && Choice(events, i) ==>
                  var list := Listed(events[..i]);
                  events[i].selected == list[Balancer.RoundRobinIndex((start + Choices(events[..i])) % Balancer.TWO_64,
                                                                      |list|)]
  }

  lemma RoundRobinListed(events: seq<Event>, start: nat)
    requires ByRoundRobin(events, start)
    ensures AllListed(events)
  {
    hide Listed, Choices, Balancer.RoundRobinIndex;
  }

  ghost predicate Counting(list: seq<int>) {
    forall i :: 0 <= i < |list| ==> list[i] == i
  }

  /** The choices of Hash: by the hash of the key, or as its own round-robin likes when there is no key. */
  ghost predicate ByHash(events: seq<Event>, hashes: seq<Option<nat>>) {
    && |hashes| == |events|
    && forall i :: 0 <= i < |events| && Choice(events, i) ==>
                     var list := Listed(events[..i]);
                     match hashes[i]
                     case Some(h) => h < 0x1_0000_0000 && events[i].selected == HashIndex(h, |list|)
                     case None => events[i].selected in list
  }

  /** The same run but for what the balancer chose. */
  ghost predicate SameButChoices(a: seq<Event>, b: seq<Event>) {
    && |a| == |b|
    && forall i :: 0 <= i < |a| ==>
                     if a[i].Partitions? then b[i] == a[i] else b[i].Message? && b[i].msg == a[i].msg
  }

  lemma {:induction false} SameListed(a: seq<Event>, b: seq<Event>)
    requires SameButChoices(a, b)
    ensures Listed(a) == Listed(b)
    decreases |a|
  {
    if a != [] {
      SameListed(a[..|a| - 1], b[..|b| - 1]);
    }
  }

  lemma SameChoice(a: seq<Event>, b: seq<Event>, i: nat)
    requires SameButChoices(a, b) && i < |a|
    ensures Listed(a[..i]) == Listed(b[..i]) && (Choice(a, i) <==> Choice(b, i))
  {
    SameListed(a[..i], b[..i]);
  }

  ghost predicate NeverCrashes(events: seq<Event>) {
    forall other, hashes :: SameButChoices(events, other) && ByHash(other, hashes) ==> AllListed(other)
  }

  /** With Hash, whatever the keys, a run never crashes exactly when every list used is 0 .. n-1. */
  lemma HashNeverCrashesIff(events: seq<Event>)
    requires ListsOk(events) && forall i :: 0 <= i < |events| ==> |Listed(events[..i])| <= 0x1_0000_0000
    ensures NeverCrashes(events) <==>
            forall i :: 0 <= i < |events| && Choice(events, i) ==> Counting(Listed(events[..i]))
  {
    hide Listed, Counting;
    if i :| 0 <= i < |events| && Choice(events, i) && !Counting(Listed(events[..i])) {
      HashCrashes(events, i);
    } else {
      forall other: seq<Event>, hashes: seq<Option<nat>> | SameButChoices(events, other) && ByHash(other, hashes)
        ensures AllListed(other)
      {
        forall i | 0 <= i < |other| && Choice(other, i)
          ensures other[i].selected in Listed(other[..i])
        {
          SameChoice(events, other, i);
          CountingHas(Listed(other[..i]), hashes[i]);
        }
      }
    }
  }

  lemma CountingHas(list: seq<int>, hash: Option<nat>)
    requires Counting(list) && list != []
    ensures hash.Some? ==> HashIndex(hash.value, |list|) in list
  {
    if hash.Some? {
      assert list[HashIndex(hash.value, |list|)] in list;
    }
  }

  lemma {:induction false} ListedOk(events: seq<Event>)
    requires ListsOk(events)
    ensures Sorted(Listed(events)) && Distinct(Listed(events))
    decreases |events|
  {
    if events != [] {
      ListedOk(events[..|events| - 1]);
    }
  }

  /** The choices of Hash when key `i` has hash `h` and all others hash to 0. */
  ghost function Hashed(events: seq<Event>, i: nat, h: nat): seq<Event> {
    seq(|events|, k requires 0 <= k < |events| =>
          var n := |Listed(events[..k])|;
          if events[k].Message? && n > 0 then events[k].(selected := HashIndex(if k == i then h else 0, n))
              else events[k])
  }

  lemma HashCrashes(events: seq<Event>, i: nat)
    requires ListsOk(events) && i < |events| && Choice(events, i) && |Listed(events[..i])| <= 0x1_0000_0000
    requires !Counting(Listed(events[..i]))
    ensures !NeverCrashes(events)
  {
    var list := Listed(events[..i]);
    ListedOk(events[..i]);
    HashRoutesIff(list);
    var h: nat :| h < 0x1_0000_0000 && HashIndex(h, |list|) !in list;
    HashedBad(events, i, h);
  }

  lemma HashedBad(events: seq<Event>, i: nat, h: nat)
    requires i < |events| && Choice(events, i) && h < 0x1_0000_0000
    requires HashIndex(h, |Listed(events[..i])|) !in Listed(events[..i])
    ensures !NeverCrashes(events)
  {
    hide Listed, HashIndex;
    var other := Hashed(events, i, h);
    var hashes := seq(|events|, k requires 0 <= k < |events| => if k == i then Some(h) else Some(0));
    assert SameButChoices(events, other);
    forall k | 0 <= k < |other|
      ensures Listed(events[..k]) == Listed(other[..k]) && (Choice(events, k) <==> Choice(other, k))
    {
      SameChoice(events, other, k);
    }
    assert ByHash(other, hashes);
    assert other[i].selected !in Listed(other[..i]);
  }

  /** One choice of LeastBytes for a message of `size` bytes: Balancer.LeastBytes.Balance. */
  ghost predicate Balances(c: seq<Balancer.Counter>, list: seq<int>, size: nat, selected: int,
                           d: seq<Balancer.Counter>) {
    exists k: nat :: Balancer.IsMinimum(Balancer.Start(c, list), k)
                     && selected == Balancer.Start(c, list)[k].partition
                     && d == Balancer.Add(Balancer.Start(c, list), k, size)
  }

  /** The choices of LeastBytes for messages of these sizes; `cs[i]` are its counters before event `i`. */
  ghost predicate ByLeastBytes(events: seq<Event>, sizes: seq<nat>, cs: seq<seq<Balancer.Counter>>) {
    && |sizes| == |events| && |cs| == |events| + 1 && cs[0] == []
    && forall i :: 0 <= i < |events| ==>
                     if Choice(events, i) then Balances(cs[i], Listed(events[..i]), sizes[i], events[i].selected,
                                                        cs[i + 1])
                     else cs[i + 1] == cs[i]
  }

  // ---------------------------------------------------------------------
  // Runs that crash
  // ---------------------------------------------------------------------

  /** Two partitions, 1 and 2, and a key with hash 0: Hash selects partition 0. */
  lemma HashSelectsNone()
    ensures var events := [Partitions(Some([1, 2])), Message(7, 0)];
            ListsOk(events) && ByHash(events, [None, Some(0)]) && !AllListed(events)
  {
    var events := [Partitions(Some([1, 2])), Message(7, 0)];
    assert events[..1] == [events[0]] && Listed(events[..1]) == [1, 2];
    assert Choice(events, 1);
    assert events[..0] == [];
  }

  /**
   Two messages of ten bytes, and between them the list shrinks to the partition
   that got the first: LeastBytes selects the other one, which is gone.
   */
  lemma LeastBytesSelectsGone()
    ensures var events := [Partitions(Some([0, 1])), Message(0, 0), Partitions(Some([0])), Message(1, 1)];
            && ListsOk(events) && !AllListed(events)
            && exists cs :: ByLeastBytes(events, [0, 10, 0, 10], cs)
  {
    hide Listed, Balances;
    var events := [Partitions(Some([0, 1])), Message(0, 0), Partitions(Some([0])), Message(1, 1)];
    var c := [Balancer.Counter(0, 10), Balancer.Counter(1, 0)];
    var d := [Balancer.Counter(0, 10), Balancer.Counter(1, 10)];
    var cs := [[], [], c, c, d];
    ShrinkingList(events);
    FirstTen(c);
    SecondTen(c, d);
    forall i | 0 <= i < 4
      ensures if Choice(events, i) then Balances(cs[i], Listed(events[..i]), [0, 10, 0, 10][i], events[i].selected,
                                                 cs[i + 1])
              else cs[i + 1] == cs[i]
    {
      assert i == 0 || i == 1 || i == 2 || i == 3;
    }
    assert ByLeastBytes(events, [0, 10, 0, 10], cs);
    assert Choice(events, 3) && events[3].selected !in Listed(events[..3]);
  }

  lemma ShrinkingList(events: seq<Event>)
    requires |events| == 4 && events[0] == Partitions(Some([0, 1])) && events[1].Message?
    requires events[2] == Partitions(Some([0])) && events[3].Message?
    ensures Listed(events[..1]) == [0, 1] && Listed(events[..3]) == [0]
  {
    assert events[..1][0] == events[0] && events[..3][2] == events[2];
  }

  lemma FirstTen(c: seq<Balancer.Counter>)
    requires c == [Balancer.Counter(0, 10), Balancer.Counter(1, 0)]
    ensures Balances([], [0, 1], 10, 0, c)
  {
    var list: seq<int> := [0, 1];
    var zeros := [Balancer.Counter(0, 0), Balancer.Counter(1, 0)];
    var one := [zeros[0]];
    assert Balancer.Zeros(list[..1]) == one by {
      assert list[..1][..0] == [] && Balancer.Zeros([]) == [];
    }
    assert Balancer.Insert(one, 1) == [one[0]] + Balancer.Insert(one[1..], 1);
    assert Balancer.Zeros(list) == Balancer.Insert(one, 1) == zeros;
    assert list[0] in Elements(list) && Balancer.Partitions([]) == {};
    assert Balancer.Start([], list) == zeros;
    assert Balancer.IsMinimum(zeros, 0);
    assert c == Balancer.Add(zeros, 0, 10);
  }

  lemma SecondTen(c: seq<Balancer.Counter>, d: seq<Balancer.Counter>)
    requires c == [Balancer.Counter(0, 10), Balancer.Counter(1, 0)]
             && d == [Balancer.Counter(0, 10), Balancer.Counter(1, 10)]
    ensures Balances(c, [0], 10, 1, d)
  {
    assert c[0] in c;
    assert Balancer.Start(c, [0]) == c;
    assert Balancer.IsMinimum(c, 1);
    assert d == Balancer.Add(c, 1, 10);
  }
}
