/**
 What the versioned subreader protocol can always do: a call gets the first
 message of the current version that waits in the channel, an error of a
 subreader reaches a call, a subreader goes on where it was, and Close takes
 effect.
 */
module ReaderProgress {
  import opened Collections
  import opened ReaderProtocol

  ghost predicate Leads(s: State, actions: seq<Action>, t: State) {
    Possible(s, actions) && Run(s, actions) == t
  }

  lemma Stays(s: State)
    ensures Leads(s, [], s)
  {
  }

  lemma One(s: State, a: Action)
    requires Enabled(s, a)
    ensures Leads(s, [a], Apply(s, a))
  {
    hide Enabled, Apply;
    assert [a][1..] == [];
    Stays(Apply(s, a));
  }

  lemma {:induction false} Then(s: State, a: seq<Action>, t: State, b: seq<Action>, u: State)
    requires Leads(s, a, t) && Leads(t, b, u)
    ensures Leads(s, a + b, u)
    decreases |a|
  {
    hide Enabled, Apply;
    if a == [] {
      assert a + b == b;
    } else {
      Then(Apply(s, a[0]), a[1..], t, b, u);
      assert (a + b)[0] == a[0] && (a + b)[1..] == a[1..] + b;
    }
  }

  // ---------------------------------------------------------------------
  // Where a subreader is
  // ---------------------------------------------------------------------

  /** The offset it would start at again, and the one its connection fetches from, if it has one. */
  datatype Where = Where(offset: int, at: Option<int>)

  function Goes(w: Where, a: Action, i: nat): Where {
    match a
    case Dial(k, start) => if k == i then Where(start, Some(start)) else w
    case Lose(k) => if k == i then w.(at := None) else w
    case Send(k, o) => if k == i then Where(o + 1, Some(o + 1)) else w
    case Moved(k, m) =>
      if k != i then w
      else if m.SeekTo? then Where(m.offset, Some(m.offset))
      else if m.EndsAt? then w.(at := Some(m.last + 1))
      else Where(0, None)
    case _ => w
  }

  function Went(w: Where, actions: seq<Action>, i: nat): Where
    decreases |actions|
  {
    if actions == [] then w else Went(Goes(w, actions[0], i), actions[1..], i)
  }

  ghost predicate Is(u: Sub, gen: nat, w: Where) {
    u.gen == gen && u.offset == w.offset && (u.dialed <==> w.at.Some?) && (u.dialed ==> u.at == w.at.value)
  }

  lemma SubGoes(s: State, a: Action, i: nat, gen: nat, w: Where)
    requires i < |s.subs| && Enabled(s, a) && Is(s.subs[i], gen, w)
    ensures i < |Apply(s, a).subs| && Is(Apply(s, a).subs[i], gen, Goes(w, a, i))
  {
    if !OfSub(a) {
      hide Apply, Enabled;
      OtherStep(s, a);
    } else if a.sub != i {
      hide Apply;
      OwnStep(s, a);
    }
  }

  lemma {:induction false} SubWent(s: State, actions: seq<Action>, i: nat, gen: nat, w: Where)
    requires i < |s.subs| && Possible(s, actions) && Is(s.subs[i], gen, w)
    ensures i < |Run(s, actions).subs| && Is(Run(s, actions).subs[i], gen, Went(w, actions, i))
    decreases |actions|
  {
    hide Apply, Enabled, Is, Goes;
    if actions != [] {
      SubGoes(s, actions[0], i, gen, w);
      SubWent(Apply(s, actions[0]), actions[1..], i, gen, Goes(w, actions[0], i));
    }
  }

  /**
   In every run: a subreader can send exactly from the offset on to which its own
   connection, messages and moves have led it since it was spawned at the offset of
   the reader, and can connect again, while it is not cancelled, exactly from the
   offset on at which it would go on.
   */
  lemma GoesOn(before: seq<Action>, n: nat, after: seq<Action>, i: nat, o: nat)
    requires Possible(START, before) && Enabled(Run(START, before), Spawn(n))
    requires Possible(Apply(Run(START, before), Spawn(n)), after)
    requires var s := Run(START, before); |s.subs| <= i < |s.subs| + n
    ensures var s := Run(START, before);
            var u, w := Run(Apply(s, Spawn(n)), after), Went(Where(s.offset, None), after, i);
            && i < |u.subs|
            && (Enabled(u, Send(i, o)) <==> u.subs[i].tag.Some? && w.at.Some? && w.at.value <= o)
            && (Enabled(u, Dial(i, o)) <==> u.subs[i].tag.Some? && w.at.None? && w.offset <= o
                                            && s.version + 1 !in u.cancelled)
  {
    hide Run, Possible, Went;
    var s := Run(START, before);
    var t := Apply(s, Spawn(n));
    assert t.subs[i] == Sub(s.version + 1, None, false, s.offset, s.offset, []);
    SubWent(t, after, i, s.version + 1, Where(s.offset, None));
  }

  // ---------------------------------------------------------------------
  // A call is served
  // ---------------------------------------------------------------------

  /** A call takes a message that is too old and starts over. */
  lemma Skips(s: State, c: nat)
    requires MutexFree(s) && (s.closed || s.version != 0) && c !in s.calls
    requires s.queue != [] && s.queue[0].tag < s.version
    ensures Leads(s, [Capture(c)] + [Receive(c)],
                  s.(queue := s.queue[1..], taken := s.taken + [s.queue[0]], fate := s.fate + [Dropped]))
  {
    var t := Apply(s, Capture(c));
    One(s, Capture(c));
    One(t, Receive(c));
    hide Leads;
    Then(s, [Capture(c)], t, [Receive(c)], Apply(t, Receive(c)));
    assert t.calls - {c} == s.calls;
  }

  /** A call takes a message of the current version and returns it. */
  lemma Serves(s: State, c: nat) returns (actions: seq<Action>, t: State)
    requires MutexFree(s) && (s.closed || s.version != 0) && c !in s.calls && |s.fate| == |s.taken|
    requires s.queue != [] && s.queue[0].tag >= s.version
    ensures Leads(s, actions, t)
    ensures var m := s.queue[0];
            t == s.(queue := s.queue[1..], taken := s.taken + [m], fate := s.fate + [Back(|s.returned|)],
                    returned := s.returned + [Returned(s.version, |s.taken|, m, s.version, !m.failed)],
                    offset := if m.failed then s.offset else m.offset + 1)
  {
    var u := Apply(s, Capture(c));
    var v := Apply(u, Receive(c));
    t := Apply(v, Return(c));
    One(s, Capture(c));
    One(u, Receive(c));
    One(v, Return(c));
    hide Leads;
    Then(s, [Capture(c)], u, [Receive(c)], v);
    Then(s, [Capture(c)] + [Receive(c)], v, [Return(c)], t);
    actions := [Capture(c)] + [Receive(c)] + [Return(c)];
    assert v.calls - {c} == s.calls;
    assert v.fate[|s.taken| := Back(|s.returned|)] == s.fate + [Back(|s.returned|)];
  }

  /**
   When the first message of the current version is behind k others in the
   channel, a call can return it, and moves the offset behind it unless it is an
   error; the others are gone then, and nothing else has changed.
   */
  lemma {:induction false} Fetches(s: State, c: nat, k: nat) returns (actions: seq<Action>, t: State)
    requires MutexFree(s) && (s.closed || s.version != 0) && c !in s.calls && |s.fate| == |s.taken|
    requires k < |s.queue| && s.queue[k].tag >= s.version && forall i :: 0 <= i < k ==> s.queue[i].tag < s.version
    ensures Leads(s, actions, t)
    ensures var m := s.queue[k];
            t == s.(queue := s.queue[k + 1..], taken := s.taken + s.queue[..k + 1], fate := t.fate,
                    returned := s.returned + [Returned(s.version, |s.taken| + k, m, s.version, !m.failed)],
                    offset := if m.failed then s.offset else m.offset + 1)
    decreases k
  {
    hide Leads;
    if k == 0 {
      actions, t := Serves(s, c);
      assert s.queue[..1] == [s.queue[0]];
    } else {
      Skips(s, c);
      var u := s.(queue := s.queue[1..], taken := s.taken + [s.queue[0]], fate := s.fate + [Dropped]);
      var more, v := Fetches(u, c, k - 1);
      Then(s, [Capture(c)] + [Receive(c)], u, more, v);
      actions, t := [Capture(c)] + [Receive(c)] + more, v;
      assert s.queue[1..][k..] == s.queue[k + 1..];
      assert s.taken + [s.queue[0]] + s.queue[1..][..k] == s.taken + s.queue[..k + 1];
    }
  }

  /** A call whose context is done is gone, and what it waited for is there for the next. */
  lemma GivesUp(s: State, c: nat, k: nat) returns (actions: seq<Action>, t: State)
    requires MutexFree(s) && (s.closed || s.version != 0) && Enabled(s, GiveUp(c)) && |s.fate| == |s.taken|
    requires k < |s.queue| && s.queue[k].tag >= s.version && forall i :: 0 <= i < k ==> s.queue[i].tag < s.version
    ensures Leads(s, actions, t) && t.calls == s.calls - {c}
    ensures t.returned == s.returned + [Returned(s.version, |s.taken| + k, s.queue[k], s.version, !s.queue[k].failed)]
  {
    hide Leads;
    var u := Apply(s, GiveUp(c));
    One(s, GiveUp(c));
    var more, v := Fetches(u, c, k);
    Then(s, [GiveUp(c)], u, more, v);
    actions, t := [GiveUp(c)] + more, v;
  }

  /**
   In every run: an error that a subreader of the current version sends can
   reach a call as long as only older messages are before it, and leaves the
   offset of the reader as it is.
   */
  lemma ErrorReaches(before: seq<Action>, i: nat, c: nat) returns (actions: seq<Action>, t: State)
    requires Possible(START, before)
    requires var s := Run(START, before);
             && MutexFree(s) && s.version != 0 && c !in s.calls && i < |s.subs| && s.subs[i].tag == Some(s.version)
             && forall k :: 0 <= k < |s.queue| ==> s.queue[k].tag < s.version
    ensures var s := Run(START, before);
            && Leads(s, actions, t) && t.queue == [] && t.offset == s.offset && |t.returned| == |s.returned| + 1
            && var r := t.returned[|s.returned|];
               r.at == |s.sent| && r.msg.failed && r.msg.sub == i && r.captured == r.version == s.version && !r.moved
  {
    hide Leads, Run, Possible, SubsOk, CallsOk, Owned, OffsetsOk, CancelledOk;
    Started();
    RunKeeps(START, before);
    var s := Run(START, before);
    var u := Apply(s, SendError(i));
    One(s, SendError(i));
    assert |s.sent| == |s.taken| + |s.queue|;
    var more, v := Fetches(u, c, |s.queue|);
    Then(s, [SendError(i)], u, more, v);
    actions, t := [SendError(i)] + more, v;
  }

  // ---------------------------------------------------------------------
  // Close
  // ---------------------------------------------------------------------

  /** In every state with the mutex free a reader can be closed; then its context is cancelled and SetOffset is idle. */
  lemma Closes(s: State, o: int)
    requires MutexFree(s)
    ensures var t := s.(closed := true, cancelled := s.cancelled + {s.version});
            Leads(s, [SetClosed] + [CancelOnClose], t) && Leads(t, [SetOffset(o)], t) && !Enabled(t, FirstFetch)
  {
    var t := Apply(s, SetClosed);
    One(s, SetClosed);
    One(t, CancelOnClose);
    Then(s, [SetClosed], t, [CancelOnClose], Apply(t, CancelOnClose));
    One(Apply(t, CancelOnClose), SetOffset(o));
  }
}
