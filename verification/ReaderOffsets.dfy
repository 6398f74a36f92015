/**
 What SetOffset promises (reader.go): which offsets the calls after it can
 return, and how the batches of a subreader (batch.go) appear in the protocol.
 */
module ReaderOffsets {
  import opened Collections
  import opened ReaderProtocol
  import Batches

  ghost predicate Quiet(actions: seq<Action>) {
    forall i :: 0 <= i < |actions| ==> !actions[i].SetOffset?
  }

  /** The subreaders from the n-th on are moved in the ways listed only. */
  ghost predicate Within(actions: seq<Action>, n: nat, allowed: iset<Move>) {
    forall i :: 0 <= i < |actions| && actions[i].Moved? && n <= actions[i].sub ==> actions[i].move in allowed
  }

  ghost predicate Only(moved: seq<Move>, allowed: iset<Move>) {
    forall i :: 0 <= i < |moved| ==> moved[i] in allowed
  }

  /** The calls that captured a later version than v returned errors and messages at offset o or later. */
  ghost predicate NoneBelow(returned: seq<Returned>, v: nat, o: int) {
    forall r :: r in returned && r.captured > v && !r.msg.failed ==> o <= r.msg.offset
  }

  /** An offset was chosen at version v with n subreaders, and the generation after it is started there. */
  ghost predicate Since(s: State, v: nat, o: int, n: nat, allowed: iset<Move>) {
    && |s.starts| == s.version
    && (s.version == v ==> s.offset == o && (s.starting || v == 0))
    && (s.version != v ==> s.version == v + 1 && s.starts[v] == o && !s.starting)
    && n <= |s.subs|
    && (forall i :: 0 <= i < n ==> s.subs[i].gen <= v)
    && (forall i :: n <= i < |s.subs| ==> Only(s.subs[i].moved, allowed))
  }

  lemma SinceKept(s: State, a: Action, v: nat, o: int, n: nat, allowed: iset<Move>)
    requires Inv(s) && Enabled(s, a) && Since(s, v, o, n, allowed) && Quiet([a]) && Within([a], n, allowed)
    ensures Since(Apply(s, a), v, o, n, allowed)
  {
    hide SubsOk, MsgsOk, Owned, OffsetsOk, CancelledOk;
    assert [a][0] == a;
    if a.Return? {
      assert CallOk(s, s.calls[a.call]);
    }
  }

  lemma {:induction false} RunSince(s: State, actions: seq<Action>, v: nat, o: int, n: nat, allowed: iset<Move>)
    requires Inv(s) && Possible(s, actions) && Since(s, v, o, n, allowed) && Quiet(actions)
             && Within(actions, n, allowed)
    ensures Since(Run(s, actions), v, o, n, allowed) && Inv(Run(s, actions))
    decreases |actions|
  {
    hide Inv, Apply, Enabled, Since;
    if actions != [] {
      Kept(s, actions[0]);
      SinceKept(s, actions[0], v, o, n, allowed);
      RunSince(Apply(s, actions[0]), actions[1..], v, o, n, allowed);
    }
  }

  /** The state in which SetOffset(o) has just moved an open reader. */
  ghost predicate Chose(s: State, o: int) {
    Inv(s) && !s.closed && o != s.offset && Enabled(s, SetOffset(o))
  }

  lemma ChosenSince(s: State, o: int, allowed: iset<Move>)
    requires Chose(s, o)
    ensures Since(Apply(s, SetOffset(o)), s.version, o, |s.subs|, allowed)
  {
    forall i | 0 <= i < |s.subs|
      ensures s.subs[i].gen <= s.version
    {
      assert SubOk(s, s.subs[i]);
    }
  }

  lemma {:induction false} LowestIs(o: int, moved: seq<Move>)
    ensures Lowest(o, moved) >= o <==> forall i :: 0 <= i < |moved| ==> Target(moved[i]) >= o
    ensures Lowest(o, moved) <= o
    decreases |moved|
  {
    if moved != [] {
      LowestIs(o, moved[..|moved| - 1]);
    }
  }

  /** What a later call returns lies no lower than its subreader was ever moved. */
  lemma ReturnsFrom(u: State, v: nat, o: int, n: nat, allowed: iset<Move>, r: Returned)
    requires Inv(u) && Since(u, v, o, n, allowed) && r in u.returned && r.captured > v && !r.msg.failed
    ensures Lowest(o, r.msg.moved) <= r.msg.offset && Only(r.msg.moved, allowed)
  {
    hide Inv, Lowest, Ahead;
    ReturnedFrom(u, r);
  }

  /**
   Once SetOffset(o) has moved an open reader, and until it is called again, a
   call that captured a later version returns an error, or a message no lower
   than o and all the offsets to which its subreader was moved before.
   */
  lemma AfterSetOffset(before: seq<Action>, o: int, after: seq<Action>)
    requires Possible(START, before)
    requires var s := Run(START, before);
             && !s.closed && o != s.offset && Enabled(s, SetOffset(o))
             && Possible(Apply(s, SetOffset(o)), after) && Quiet(after)
    ensures var s := Run(START, before);
            forall r :: r in Run(Apply(s, SetOffset(o)), after).returned && r.captured > s.version && !r.msg.failed ==>
                          r.msg.offset >= Lowest(o, r.msg.moved)
  {
    hide Run, Possible, Inv, Since, Lowest, Apply;
    Started();
    RunKeeps(START, before);
    var s := Run(START, before);
    var t, all := Apply(s, SetOffset(o)), iset m: Move | Target(m) >= 0;
    Kept(s, SetOffset(o));
    ChosenSince(s, o, all);
    RunSince(t, after, s.version, o, |s.subs|, all);
    forall r | r in Run(t, after).returned && r.captured > s.version && !r.msg.failed
      ensures r.msg.offset >= Lowest(o, r.msg.moved)
    {
      ReturnsFrom(Run(t, after), s.version, o, |s.subs|, all, r);
    }
  }

  // ---------------------------------------------------------------------
  // Runs that go back
  // ---------------------------------------------------------------------

  /** A run from s to t without SetOffset, in which the subreaders from the n-th on are moved as listed. */
  ghost predicate Leads(s: State, actions: seq<Action>, t: State, n: nat, allowed: iset<Move>) {
    Possible(s, actions) && Run(s, actions) == t && Quiet(actions) && Within(actions, n, allowed)
  }

  lemma One(s: State, a: Action, n: nat, allowed: iset<Move>)
    requires Enabled(s, a) && Quiet([a]) && Within([a], n, allowed)
    ensures Leads(s, [a], Apply(s, a), n, allowed)
  {
    hide Enabled, Apply;
    var none: seq<Action> := [a][1..];
    assert none == [] && Possible(Apply(s, a), none) && Run(Apply(s, a), none) == Apply(s, a);
  }

  lemma {:induction false} Then(s: State, a: seq<Action>, t: State, b: seq<Action>, u: State, n: nat,
                                allowed: iset<Move>)
    requires Leads(s, a, t, n, allowed) && Leads(t, b, u, n, allowed)
    ensures Leads(s, a + b, u, n, allowed)
    decreases |a|
  {
    hide Enabled, Apply;
    if a == [] {
      assert a + b == b;
    } else {
      var s' := Apply(s, a[0]);
      assert Quiet(a[1..]) && Within(a[1..], n, allowed);
      Then(s', a[1..], t, b, u, n, allowed);
      assert (a + b)[0] == a[0] && (a + b)[1..] == a[1..] + b;
    }
  }

  /** One step more. */
  lemma Next(s: State, a: seq<Action>, t: State, x: Action, n: nat, allowed: iset<Move>)
    requires Leads(s, a, t, n, allowed) && Enabled(t, x) && Quiet([x]) && Within([x], n, allowed)
    ensures Leads(s, a + [x], Apply(t, x), n, allowed)
  {
    hide Enabled, Apply, Leads;
    One(t, x, n, allowed);
    Then(s, a, t, [x], Apply(t, x), n, allowed);
  }

  lemma {:induction false} Fresh(calls: set<nat>) returns (c: nat)
    ensures forall k :: k in calls ==> k < c
  {
    if calls == {} {
      c := 0;
    } else {
      var k :| k in calls;
      var d := Fresh(calls - {k});
      c := if k < d then d else k + 1;
      assert forall x :: x in calls ==> x in calls - {k} || x == k;
    }
  }

  /** A call takes the next message out of the channel, and drops or returns it. */
  lemma TakesOne(s: State, n: nat, allowed: iset<Move>) returns (actions: seq<Action>, t: State)
    requires MutexFree(s) && s.version > 0 && s.queue != []
    ensures Leads(s, actions, t, n, allowed)
    ensures t.subs == s.subs && t.version == s.version && MutexFree(t) && t.queue == s.queue[1..]
    ensures s.queue[0].tag >= s.version ==>
              exists r :: r in t.returned && r.captured == s.version && r.msg == s.queue[0]
  {
    hide Leads;
    var c := Fresh(s.calls.Keys);
    var s1 := Apply(s, Capture(c));
    t := Apply(s1, Receive(c));
    One(s, Capture(c), n, allowed);
    Next(s, [Capture(c)], s1, Receive(c), n, allowed);
    actions := [Capture(c)] + [Receive(c)];
    if s.queue[0].tag >= s.version {
      Next(s, actions, t, Return(c), n, allowed);
      actions := actions + [Return(c)];
      t := Apply(t, Return(c));
      assert t.returned[|s.returned|] in t.returned;
    }
  }

  lemma {:induction false} Drains(s: State, n: nat, allowed: iset<Move>) returns (actions: seq<Action>, t: State)
    requires MutexFree(s) && s.version > 0
    ensures Leads(s, actions, t, n, allowed)
    ensures t.subs == s.subs && t.version == s.version && MutexFree(t) && t.queue == []
    decreases |s.queue|
  {
    hide MutexFree;
    if s.queue == [] {
      actions, t := [], s;
    } else {
      var a, u := TakesOne(s, n, allowed);
      var b, v := Drains(u, n, allowed);
      Then(s, a, u, b, v, n, allowed);
      actions, t := a + b, v;
    }
  }

  /** From a subreader that is connected at offset x to a call that returns the message there. */
  lemma Delivers(s: State, i: nat, n: nat, allowed: iset<Move>) returns (actions: seq<Action>, t: State)
    requires MutexFree(s) && s.version > 0 && i < |s.subs| && s.subs[i].dialed && s.subs[i].tag == Some(s.version)
    ensures Leads(s, actions, t, n, allowed)
    ensures exists r :: r in t.returned && r.captured == s.version && !r.msg.failed && r.msg.offset == s.subs[i].at
  {
    hide Leads;
    var a, u := Drains(s, n, allowed);
    var x := Send(i, s.subs[i].at);
    Next(s, a, u, x, n, allowed);
    var w := Apply(u, x);
    var b, v := TakesOne(w, n, allowed);
    Then(s, a + [x], w, b, v, n, allowed);
    actions, t := a + [x] + b, v;
  }

  /** From the choice of an offset to a subreader of the new generation that is connected there. */
  lemma Connects(s: State, v: nat, o: nat, n: nat, allowed: iset<Move>) returns (actions: seq<Action>, t: State)
    requires Inv(s) && Since(s, v, o, n, allowed) && s.version == v && !s.closed
    ensures Leads(s, actions, t, n, allowed)
    ensures MutexFree(t) && t.version == v + 1 && v + 1 !in t.cancelled && n <= |s.subs| < |t.subs|
    ensures t.subs[|s.subs|] == Sub(v + 1, Some(v + 1), true, o, o, [])
  {
    hide Leads, SubsOk, MsgsOk, CallsOk, Owned, OffsetsOk;
    actions, t := [], s;
    assert Leads(s, [], s, n, allowed) by {
      Stays(s, n, allowed);
    }
    if !s.starting {
      Next(s, actions, t, FirstFetch, n, allowed);
      actions, t := actions + [FirstFetch], Apply(t, FirstFetch);
    }
    var i := |s.subs|;
    Next(s, actions, t, Spawn(1), n, allowed);
    actions, t := actions + [Spawn(1)], Apply(t, Spawn(1));
    assert t.subs[i] == Sub(v + 1, None, false, o, o, []);
    Next(s, actions, t, ReadVersion(i), n, allowed);
    actions, t := actions + [ReadVersion(i)], Apply(t, ReadVersion(i));
    Next(s, actions, t, Dial(i, o), n, allowed);
    actions, t := actions + [Dial(i, o)], Apply(t, Dial(i, o));
  }

  lemma Stays(s: State, n: nat, allowed: iset<Move>)
    ensures Leads(s, [], s, n, allowed)
  {
  }

  /** The subreader is moved, and connected where it was moved to. */
  lemma MovesTo(s: State, i: nat, m: Move, n: nat, allowed: iset<Move>) returns (actions: seq<Action>, t: State)
    requires MutexFree(s) && i < |s.subs| && s.subs[i].dialed && s.subs[i].tag.Some? && s.subs[i].gen !in s.cancelled
    requires m in allowed && Target(m) < s.subs[i].at
    ensures Leads(s, actions, t, n, allowed)
    ensures MutexFree(t) && t.version == s.version && |t.subs| == |s.subs|
    ensures t.subs[i].dialed && t.subs[i].tag == s.subs[i].tag && t.subs[i].at == Target(m)
  {
    hide Leads;
    One(s, Moved(i, m), n, allowed);
    actions, t := [Moved(i, m)], Apply(s, Moved(i, m));
    if m.SeekFails? {
      Next(s, actions, t, Dial(i, 0), n, allowed);
      actions, t := actions + [Dial(i, 0)], Apply(t, Dial(i, 0));
    }
  }

  /**
   Whatever happened before SetOffset(o), one move of a subreader to an offset
   below o is enough for a later call to return the message there.
   */
  lemma Rewinds(s: State, o: int, m: Move, allowed: iset<Move>) returns (after: seq<Action>, u: State)
    requires Chose(s, o) && m in allowed && Target(m) < o
    ensures Leads(Apply(s, SetOffset(o)), after, u, |s.subs|, allowed)
    ensures exists r :: r in u.returned && r.captured > s.version && !r.msg.failed && r.msg.offset == Target(m)
  {
    hide Leads, Inv, Since, Apply;
    var t, n := Apply(s, SetOffset(o)), |s.subs|;
    Kept(s, SetOffset(o));
    ChosenSince(s, o, allowed);
    assert t.version == s.version && !t.closed && t.subs == s.subs by {
      JustChosen(s, o);
    }
    var a, w := Connects(t, s.version, o, n, allowed);
    var b, x := MovesTo(w, n, m, n, allowed);
    Then(t, a, w, b, x, n, allowed);
    var c, y := Delivers(x, n, n, allowed);
    Then(t, a + b, x, c, y, n, allowed);
    after, u := a + b + c, y;
  }

  lemma JustChosen(s: State, o: int)
    requires Chose(s, o)
    ensures var t := Apply(s, SetOffset(o)); t.version == s.version && !t.closed && t.subs == s.subs && t.offset == o
  {
  }

  /** Every run after SetOffset(o) in which the new subreaders are moved as listed keeps to o. */
  ghost predicate Holds(s: State, o: int, allowed: iset<Move>)
    requires Enabled(s, SetOffset(o))
  {
    forall after, u :: Leads(Apply(s, SetOffset(o)), after, u, |s.subs|, allowed)
        ==> NoneBelow(u.returned, s.version, o)
  }

  /**
   SetOffset(o) is kept, in every run until it is called again, exactly when no
   subreader of the new generation can be moved below o.
   */
  lemma SetOffsetHoldsIff(before: seq<Action>, o: int, allowed: iset<Move>)
    requires Possible(START, before)
    requires var s := Run(START, before); !s.closed && o != s.offset && Enabled(s, SetOffset(o))
    ensures Holds(Run(START, before), o, allowed) <==> forall m :: m in allowed ==> Target(m) >= o
  {
    hide Run, Possible, Inv, Since, Lowest, Apply, Leads;
    Started();
    RunKeeps(START, before);
    var s := Run(START, before);
    if m :| m in allowed && Target(m) < o {
      var after, u := Rewinds(s, o, m, allowed);
    } else {
      forall after, u | Leads(Apply(s, SetOffset(o)), after, u, |s.subs|, allowed)
        ensures NoneBelow(u.returned, s.version, o)
      {
        Keeps(s, o, allowed, after, u);
      }
    }
  }

  lemma Keeps(s: State, o: int, allowed: iset<Move>, after: seq<Action>, u: State)
    requires Chose(s, o) && Leads(Apply(s, SetOffset(o)), after, u, |s.subs|, allowed)
    requires forall m :: m in allowed ==> Target(m) >= o
    ensures NoneBelow(u.returned, s.version, o)
  {
    hide Run, Possible, Inv, Since, Lowest, Apply;
    Kept(s, SetOffset(o));
    ChosenSince(s, o, allowed);
    RunSince(Apply(s, SetOffset(o)), after, s.version, o, |s.subs|, allowed);
    forall r | r in u.returned && r.captured > s.version && !r.msg.failed
      ensures o <= r.msg.offset
    {
      ReturnsFrom(u, s.version, o, |s.subs|, allowed, r);
      LowestIs(o, r.msg.moved);
    }
  }

  /** A call after SetOffset(5) that returns the message at `offset`, the subreader being moved once. */
  ghost predicate Returns(move: Move, offset: int) {
    exists after, u, r :: && Leads(Apply(START, SetOffset(5)), after, u, 0, iset{move})
                          && r in u.returned && r.captured > 0 && !r.msg.failed && r.msg.offset == offset
  }

  /**
   Three such runs: the broker finds the offset out of range and its subreader
   seeks to the first one; a response ends with the message at offset 1; and a
   seek fails.
   */
  lemma GoesBack()
    ensures Returns(SeekTo(0), 0) && Returns(EndsAt(1), 2) && Returns(SeekFails, 0)
  {
    hide Leads, Inv, Apply;
    Started();
    var a, s := Rewinds(START, 5, SeekTo(0), iset{SeekTo(0)});
    var b, t := Rewinds(START, 5, EndsAt(1), iset{EndsAt(1)});
    var c, u := Rewinds(START, 5, SeekFails, iset{SeekFails});
  }

  // ---------------------------------------------------------------------
  // Batches as steps
  // ---------------------------------------------------------------------

  function Sends(i: nat, ms: seq<Batches.Message>): (r: seq<Action>)
    ensures |r| == |ms|
  {
    seq(|ms|, k requires 0 <= k < |ms| => Send(i, ms[k].offset))
  }

  /** What a fetch does in the protocol: it sends what the batch delivers, and may end early. */
  ghost function FetchSteps(i: nat, at: int, f: Batches.Fetch): seq<Action>
  {
    var (rs, u) := Batches.Calls(Batches.Open(at, f), f.lates);
    if 0 < u.offset < at then [Moved(i, EndsAt(u.offset - 1))] else Sends(i, Batches.Messages(rs))
  }

  lemma {:induction false} SendsAscending(s: State, i: nat, ms: seq<Batches.Message>)
    requires i < |s.subs| && s.subs[i].tag.Some? && s.subs[i].dialed
    requires Batches.Ascending(ms) && (ms != [] ==> s.subs[i].at <= ms[0].offset)
    ensures Possible(s, Sends(i, ms)) && i < |Run(s, Sends(i, ms)).subs|
    ensures Run(s, Sends(i, ms)).subs[i].at == if ms == [] then s.subs[i].at else ms[|ms| - 1].offset + 1
    decreases |ms|
  {
    if ms != [] {
      var a := Send(i, ms[0].offset);
      SendsAscending(Apply(s, a), i, ms[1..]);
      assert Sends(i, ms)[0] == a && Sends(i, ms)[1..] == Sends(i, ms[1..]);
    }
  }

  /**
   Every fetch of a connected subreader, whatever ascending messages the response
   holds and however it is read, is a run of the protocol: its messages are sent
   in order, and the subreader resumes where the connection does.
   */
  lemma FetchIsRun(s: State, i: nat, f: Batches.Fetch)
    requires i < |s.subs| && s.subs[i].tag.Some? && s.subs[i].dialed
    requires f.opens == Batches.NoError && f.ending != Batches.NoError && Batches.Ascending(f.messages)
    requires forall m :: m in f.messages ==> m.offset >= 0
    ensures var at := s.subs[i].at;
            var (rs, u) := Batches.Calls(Batches.Open(at, f), f.lates);
            && Possible(s, FetchSteps(i, at, f)) && i < |Run(s, FetchSteps(i, at, f)).subs|
            && Run(s, FetchSteps(i, at, f)).subs[i].at == u.offset
            && (u.offset < at ==> Batches.Messages(rs) == [])
  {
    hide Batches.Calls, Batches.Wanted, Batches.Messages, Batches.ReplyAt;
    var at := s.subs[i].at;
    var v := Batches.Open(at, f);
    var (rs, u) := Batches.Calls(v, f.lates);
    Batches.ResumesBelowIff(v, f.lates);
    if u.offset < at {
      var last := f.messages[|f.messages| - 1];
      assert last in f.messages;
      EndsEarly(v, f.lates);
      One(s, Moved(i, EndsAt(u.offset - 1)), 0, iset{EndsAt(u.offset - 1)});
    } else {
      if f.lates == [] {
        NoCalls(v);
      } else {
        Batches.FetchInOrder(at, f);
      }
      SendsAscending(s, i, Batches.Messages(rs));
    }
  }

  lemma NoCalls(v: Batches.View)
    ensures Batches.Calls(v, []) == ([], v) && Batches.Messages([]) == []
  {
  }

  lemma EndsEarly(v: Batches.View, lates: seq<bool>)
    requires Batches.Ready(v) && v.offset == v.fetched && Batches.Calls(v, lates).1.offset < v.fetched
    ensures v.left != [] && Batches.Calls(v, lates).1.offset == v.left[|v.left| - 1].offset + 1
    ensures Batches.Messages(Batches.Calls(v, lates).0) == []
  {
    hide Batches.Calls, Batches.Wanted, Batches.Messages, Batches.ReplyAt;
    Batches.CallsDeliver(v, lates);
    Batches.ResumesBelowIff(v, lates);
    assert Batches.Wanted(v.left, v.fetched) == [] by {
      if Batches.Wanted(v.left, v.fetched) != [] {
        Batches.WantedBounds(v.left, v.fetched);
        Batches.LastIsWanted(v.left, v.fetched);
      }
    }
    Batches.AllFail(v, lates);
    Batches.MessagesOf(Batches.Calls(v, lates).0, [], 0);
  }
}
