/**
 The versioned subreader protocol behind FetchMessage and SetOffset (reader.go).

 `start` cancels the subreaders of the previous generation, increments the
 version and spawns new ones; each subreader reads the version by itself, some
 time after it was spawned, and tags its messages with it.  Actions are the
 atomic steps of all goroutines, in any interleaving.
 */
module ReaderProtocol {
  import opened Collections

  /**
   What takes a subreader to another offset than the one it has come to: seeking
   after the broker found it out of range, to either end of the partition; a
   response whose last message lies before the offset asked for, since the
   connection resumes one past it; and a seek that fails, which returns zero.
   */
  datatype Move = SeekTo(offset: nat) | EndsAt(last: nat) | SeekFails

  function Target(m: Move): nat {
    match m
    case SeekTo(offset) => offset
    case EndsAt(last) => last + 1
    case SeekFails => 0
  }

  /**
   A subreader: the generation that spawned it, the version it read, whether it
   has a connection, the offset it would start at again, the offset its
   connection fetches from, and how it was moved so far.
   */
  datatype Sub = Sub(gen: nat, tag: Option<nat>, dialed: bool, offset: int, at: int, moved: seq<Move>)

  /** readerMessage, with what its sender was at that moment for the specification. */
  datatype Msg = Msg(tag: nat, gen: nat, offset: int, failed: bool, sub: nat, moved: seq<Move>)

  /** A call of FetchMessage: it knows the version it captured and, later, the message it received, the at-th one. */
  datatype Call = Waiting(captured: nat) | Holding(captured: nat, at: nat, msg: Msg)

  /** What a call returned, at which version, and whether it moved the offset. */
  datatype Returned = Returned(captured: nat, at: nat, msg: Msg, version: nat, moved: bool)

  /** What became of a message taken out of the channel. */
  datatype Fate = Held(call: nat) | Dropped | Back(index: nat)

  datatype State = State(
    version: nat,
    offset: int,
    closed: bool,
    starting: bool,        // start() holds the mutex: cancelled, not yet incremented
    cancelled: set<nat>,   // generations whose context is cancelled
    starts: seq<int>,      // the offset each generation was started at
    subs: seq<Sub>,
    queue: seq<Msg>,       // the channel r.msgs
    calls: map<nat, Call>,
    sent: seq<Msg>,        // everything ever put into the channel
    taken: seq<Msg>,       // everything ever taken out of it
    fate: seq<Fate>,       // what became of each message taken
    returned: seq<Returned>)

  datatype Action =
    | SetOffset(offset: int)
    | FirstFetch
    | Spawn(n: nat)
    | ReadVersion(sub: nat)
    | Dial(sub: nat, start: nat)
    | Lose(sub: nat)
    | Moved(sub: nat, move: Move)
    | Send(sub: nat, offset: int)
    | SendError(sub: nat)
    | Capture(call: nat)
    | Receive(call: nat)
    | Return(call: nat)
    | GiveUp(call: nat)
    | SetClosed
    | CancelOnClose

  /** A reader that is not in a consumer group. */
  const START := State(0, -2, false, false, {}, [], [], [], map[], [], [], [], [])

  predicate MutexFree(s: State) {
    !s.starting
  }

  predicate Enabled(s: State, a: Action) {
    match a
    case SetOffset(o) => MutexFree(s)
    case FirstFetch => MutexFree(s) && !s.closed && s.version == 0
    case Spawn(_) => s.starting
    case ReadVersion(i) => i < |s.subs| && s.subs[i].tag.None?
    // Dialing fails on a context that is already cancelled.
    // The offset to start at is the wanted one or the first of the partition, whichever is later.
    case Dial(i, start) =>
      && i < |s.subs| && s.subs[i].tag.Some? && !s.subs[i].dialed && s.subs[i].gen !in s.cancelled
      && s.subs[i].offset <= start
    case Lose(i) => i < |s.subs| && s.subs[i].dialed
    case Moved(i, m) => i < |s.subs| && s.subs[i].dialed && (m.EndsAt? ==> Target(m) < s.subs[i].at)
    // A send and a cancelled context can both be ready: select may still choose the send.
    // A batch delivers ascending offsets from the one its connection fetches from.
    case Send(i, o) => i < |s.subs| && s.subs[i].tag.Some? && s.subs[i].dialed && s.subs[i].at <= o
    case SendError(i) => i < |s.subs| && s.subs[i].tag.Some?
    case Capture(c) => MutexFree(s) && c !in s.calls && (s.closed || s.version != 0)
    case Receive(c) => c in s.calls && s.calls[c].Waiting? && s.queue != []
    case Return(c) => MutexFree(s) && c in s.calls && s.calls[c].Holding?
    // The context of the call is done.
    case GiveUp(c) => c in s.calls && s.calls[c].Waiting?
    case SetClosed => MutexFree(s)
    case CancelOnClose => s.closed
  }

  /** The first half of start(): cancel, with the mutex held until `Spawn`. */
  function BeginStart(s: State): State {
    s.(starting := true, cancelled := s.cancelled + {s.version})
  }

  function Message(s: State, i: nat, offset: int, failed: bool): Msg
    requires i < |s.subs| && s.subs[i].tag.Some?
  {
    Msg(s.subs[i].tag.value, s.subs[i].gen, offset, failed, i, s.subs[i].moved)
  }

  /** A seek sets both offsets, an early end only that of the connection; a failed seek ends the connection. */
  function MoveStep(u: Sub, m: Move): Sub {
    var w := u.(moved := u.moved + [m]);
    match m
    case SeekTo(o) => w.(offset := o, at := o)
    case EndsAt(last) => w.(at := last + 1)
    case SeekFails => w.(offset := 0, dialed := false)
  }

  /** The subreader has sent the message at offset `o`. */
  function Past(u: Sub, o: int): Sub {
    u.(offset := o + 1, at := o + 1)
  }

  function Put(s: State, m: Msg): State {
    s.(queue := s.queue + [m], sent := s.sent + [m])
  }

  function Apply(s: State, a: Action): State
    requires Enabled(s, a)
  {
    match a
    case SetOffset(o) =>
      if s.closed || o == s.offset then s
      else
        var t := s.(offset := o);
        if s.version != 0 then BeginStart(t) else t
    case FirstFetch => BeginStart(s)
    case Spawn(n) =>
      s.(starting := false, version := s.version + 1, starts := s.starts + [s.offset],
         subs := s.subs + seq(n, _ => Sub(s.version + 1, None, false, s.offset, s.offset, [])))
    case ReadVersion(i) => s.(subs := s.subs[i := s.subs[i].(tag := Some(s.version))])
    case Dial(i, start) => s.(subs := s.subs[i := s.subs[i].(dialed := true, offset := start, at := start)])
    case Lose(i) => s.(subs := s.subs[i := s.subs[i].(dialed := false)])
    case Moved(i, m) => s.(subs := s.subs[i := MoveStep(s.subs[i], m)])
    case Send(i, o) => Put(s, Message(s, i, o, false)).(subs := s.subs[i := Past(s.subs[i], o)])
    case SendError(i) => Put(s, Message(s, i, 0, true))
    case Capture(c) => s.(calls := s.calls[c := Waiting(s.version)])
    case Receive(c) =>
      var m, v := s.queue[0], s.calls[c].captured;
      var t := s.(queue := s.queue[1..], taken := s.taken + [m]);
      if m.tag >= v then t.(calls := s.calls[c := Holding(v, |s.taken|, m)], fate := s.fate + [Held(c)])
      else t.(calls := s.calls - {c}, fate := s.fate + [Dropped])
    case Return(c) =>
      var v, at, m := s.calls[c].captured, s.calls[c].at, s.calls[c].msg;
      var moved := !m.failed && v == s.version;
      var t := s.(calls := s.calls - {c}, returned := s.returned + [Returned(v, at, m, s.version, moved)],
                  fate := if at < |s.fate| then s.fate[at := Back(|s.returned|)] else s.fate);
      if moved then t.(offset := m.offset + 1) else t
    case GiveUp(c) => s.(calls := s.calls - {c})
    case SetClosed => s.(closed := true)
    case CancelOnClose => s.(cancelled := s.cancelled + {s.version})
  }

  // ---------------------------------------------------------------------
  // The invariant
  // ---------------------------------------------------------------------

  /**
   A subreader that read a later version than its own generation was cancelled
   before, and so can never connect; connected ones carry their generation.
   */
  ghost predicate SubOk(s: State, u: Sub) {
    && 1 <= u.gen <= s.version
    && (u.tag.Some? ==> u.gen <= u.tag.value <= s.version)
    && (u.gen < s.version ==> u.gen in s.cancelled)
    && (u.tag.Some? && u.gen < u.tag.value ==> u.gen in s.cancelled)
    && (u.dialed ==> u.tag == Some(u.gen))
  }

  ghost predicate MsgOk(s: State, m: Msg) {
    1 <= m.gen <= m.tag <= s.version && (!m.failed ==> m.tag == m.gen)
  }

  ghost predicate CallOk(s: State, c: Call) {
    && c.captured <= s.version
    && (c.Holding? ==> MsgOk(s, c.msg) && c.captured <= c.msg.tag)
  }

  ghost predicate ReturnedOk(s: State, r: Returned) {
    && r.captured <= r.version <= s.version
    && (!r.msg.failed ==> r.captured <= r.msg.gen <= r.version && r.msg.tag == r.msg.gen)
    && (r.moved ==> !r.msg.failed && r.msg.gen == r.version)
  }

  ghost predicate SubsOk(s: State) {
    forall i :: 0 <= i < |s.subs| ==> SubOk(s, s.subs[i])
  }

  ghost predicate MsgsOk(s: State) {
    && s.sent == s.taken + s.queue
    && (forall i :: 0 <= i < |s.sent| ==> MsgOk(s, s.sent[i]))
    && |s.fate| == |s.taken|
    && (forall i :: 0 <= i < |s.fate| && s.fate[i].Dropped? ==> s.taken[i].tag < s.version)
  }

  ghost predicate CallsOk(s: State) {
    && (forall c :: c in s.calls ==> CallOk(s, s.calls[c]))
    && (forall i :: 0 <= i < |s.returned| ==> ReturnedOk(s, s.returned[i]))
  }

  /** Every message taken has one owner: the call that holds it or the return that delivered it. */
  ghost predicate Owned(s: State) {
    |s.fate| == |s.taken| && HoldersOk(s) && ReturnsOk(s) && FatesOk(s)
  }

  ghost predicate HoldersOk(s: State)
    requires |s.fate| == |s.taken|
  {
    forall c :: c in s.calls && s.calls[c].Holding? ==>
                  && s.calls[c].at < |s.fate|
                  && s.fate[s.calls[c].at] == Held(c)
                  && s.calls[c].msg == s.taken[s.calls[c].at]
  }

  ghost predicate ReturnsOk(s: State)
    requires |s.fate| == |s.taken|
  {
    forall i :: 0 <= i < |s.returned| ==>
                  && s.returned[i].at < |s.fate|
                  && s.fate[s.returned[i].at] == Back(i)
                  && s.returned[i].msg == s.taken[s.returned[i].at]
  }

  ghost predicate FatesOk(s: State) {
    forall p :: 0 <= p < |s.fate| ==> FateOk(s, p)
  }

  ghost predicate FateOk(s: State, p: nat)
    requires p < |s.fate|
  {
    match s.fate[p]
    case Held(c) => c in s.calls && s.calls[c].Holding? && s.calls[c].at == p
    case Back(i) => i < |s.returned| && s.returned[i].at == p
    case Dropped => true
  }

  /** The lowest offset a subreader was started at or moved to. */
  function Lowest(start: int, moved: seq<Move>): int {
    if moved == [] then start
    else
      var low, target := Lowest(start, moved[..|moved| - 1]), Target(moved[|moved| - 1]);
      if target < low then target else low
  }

  /** What a subreader sent lies between the lowest offset it was ever put to and what it reads next. */
  ghost predicate SentOk(s: State, m: Msg) {
    && m.sub < |s.subs| && m.moved <= s.subs[m.sub].moved
    && 1 <= m.gen <= |s.starts| && m.gen == s.subs[m.sub].gen
    && (!m.failed ==> Lowest(s.starts[m.gen - 1], m.moved) <= m.offset)
    && (!m.failed && |m.moved| == |s.subs[m.sub].moved| ==> Ahead(s.subs[m.sub], m.offset))
  }

  /** A subreader delivers only messages past this offset, unless it is moved. */
  predicate Ahead(u: Sub, offset: int) {
    offset < u.offset && (u.dialed ==> offset < u.at)
  }

  /** A subreader sends ascending offsets between two moves. */
  ghost predicate Ascending(a: Msg, b: Msg) {
    a.sub == b.sub && a.moved == b.moved && !a.failed && !b.failed ==> a.offset < b.offset
  }

  ghost predicate StartOk(s: State, u: Sub) {
    && 1 <= u.gen <= |s.starts| && Lowest(s.starts[u.gen - 1], u.moved) <= u.offset
    && (u.dialed ==> Lowest(s.starts[u.gen - 1], u.moved) <= u.at)
  }

  ghost predicate OffsetsOk(s: State) {
    && |s.starts| == s.version
    && (forall i :: 0 <= i < |s.subs| ==> StartOk(s, s.subs[i]))
    && (forall i :: 0 <= i < |s.sent| ==> SentOk(s, s.sent[i]))
    && (forall i, j :: 0 <= i < j < |s.sent| ==> Ascending(s.sent[i], s.sent[j]))
  }

  ghost predicate CancelledOk(s: State) {
    (s.starting ==> s.version in s.cancelled) && forall g :: g in s.cancelled ==> g <= s.version
  }

  ghost predicate Inv(s: State) {
    SubsOk(s) && MsgsOk(s) && CallsOk(s) && Owned(s) && OffsetsOk(s) && CancelledOk(s)
  }

  // ---------------------------------------------------------------------
  // Every action keeps it
  // ---------------------------------------------------------------------

  /** The actions of a subreader. */
  predicate OfSub(a: Action) {
    a.ReadVersion? || a.Dial? || a.Lose? || a.Moved? || a.Send?
  }

  lemma OwnStep(s: State, a: Action)
    requires Enabled(s, a) && OfSub(a)
    ensures var t := Apply(s, a);
            t.version == s.version && t.cancelled == s.cancelled && t.starts == s.starts
                && t.subs == s.subs[a.sub := t.subs[a.sub]]
  {
  }

  /** What the others do to the subreaders there are: nothing. */
  lemma OtherStep(s: State, a: Action)
    requires Enabled(s, a) && !OfSub(a)
    ensures var t := Apply(s, a);
            && s.cancelled <= t.cancelled && s.subs <= t.subs && s.starts <= t.starts
            && (!a.Spawn? ==> t.subs == s.subs && t.version == s.version && t.starts == s.starts)
            && (a.Spawn? ==> t.version == s.version + 1 && |t.starts| == |s.starts| + 1)
  {
  }

  lemma OwnOk(s: State, a: Action)
    requires Enabled(s, a) && OfSub(a) && SubOk(s, s.subs[a.sub])
    ensures SubOk(Apply(s, a), Apply(s, a).subs[a.sub])
  {
  }

  lemma SpawnOk(s: State, n: nat, i: nat)
    requires Enabled(s, Spawn(n)) && |s.subs| <= i < |s.subs| + n
    ensures SubOk(Apply(s, Spawn(n)), Apply(s, Spawn(n)).subs[i])
  {
  }

  lemma SubsKept(s: State, a: Action)
    requires Inv(s) && Enabled(s, a)
    ensures SubsOk(Apply(s, a))
  {
    hide MsgsOk, CallsOk, Owned, OffsetsOk, Apply, Enabled;
    var t := Apply(s, a);
    if OfSub(a) {
      OwnIndex(s, a);
      OwnStep(s, a);
      OwnOk(s, a);
    } else {
      OtherStep(s, a);
      if a.Spawn? {
        SpawnStarts(s, a);
      }
    }
    forall i | 0 <= i < |t.subs|
      ensures SubOk(t, t.subs[i])
    {
      if i < |s.subs| {
        assert SubOk(s, s.subs[i]);
      } else {
        SpawnOk(s, a.n, i);
      }
    }
  }

  lemma OwnIndex(s: State, a: Action)
    requires Enabled(s, a) && OfSub(a)
    ensures a.sub < |s.subs| <= |Apply(s, a).subs|
  {
  }

  lemma SpawnStarts(s: State, a: Action)
    requires Enabled(s, a) && a.Spawn?
    ensures s.starting && |Apply(s, a).subs| == |s.subs| + a.n
  {
  }

  lemma SameMsgs(s: State, t: State)
    requires MsgsOk(s) && t.version >= s.version
    requires t.sent == s.sent && t.taken == s.taken && t.queue == s.queue && t.fate == s.fate
    ensures MsgsOk(t)
  {
    forall i | 0 <= i < |t.sent|
      ensures MsgOk(t, t.sent[i])
    {
      assert MsgOk(s, s.sent[i]);
    }
  }

  lemma PutOk(s: State, m: Msg)
    requires MsgsOk(s) && MsgOk(s, m)
    ensures MsgsOk(Put(s, m))
  {
    var t := Put(s, m);
    forall i | 0 <= i < |t.sent|
      ensures MsgOk(t, t.sent[i])
    {
      assert i < |s.sent| ==> MsgOk(s, s.sent[i]);
    }
  }

  lemma MsgsKept(s: State, a: Action)
    requires Inv(s) && Enabled(s, a)
    ensures MsgsOk(Apply(s, a))
  {
    hide MsgsOk, Owned;
    if a.Send? {
      assert SubOk(s, s.subs[a.sub]);
      PutOk(s, Message(s, a.sub, a.offset, false));
      SameMsgs(Put(s, Message(s, a.sub, a.offset, false)), Apply(s, a));
    } else if a.SendError? {
      assert SubOk(s, s.subs[a.sub]);
      PutOk(s, Message(s, a.sub, 0, true));
    } else if a.Receive? {
      ReceiveOk(s, a.call);
    } else if a.Return? {
      ReturnOk(s, a.call);
    } else {
      SameMsgs(s, Apply(s, a));
    }
  }

  lemma ReceiveOk(s: State, c: nat)
    requires Inv(s) && Enabled(s, Receive(c))
    ensures MsgsOk(Apply(s, Receive(c)))
  {
    hide SubsOk, Owned;
    var t := Apply(s, Receive(c));
    assert CallOk(s, s.calls[c]);
    assert s.queue == [s.queue[0]] + s.queue[1..];
    assert s.taken + s.queue == s.taken + [s.queue[0]] + s.queue[1..];
    assert forall i :: 0 <= i < |t.sent| ==> MsgOk(s, s.sent[i]);
  }

  lemma ReturnOk(s: State, c: nat)
    requires Inv(s) && Enabled(s, Return(c))
    ensures MsgsOk(Apply(s, Return(c)))
  {
    hide SubsOk, Owned, CallsOk;
    assert forall i :: 0 <= i < |s.sent| ==> MsgOk(s, s.sent[i]);
  }

  lemma CallsKept(s: State, a: Action)
    requires Inv(s) && Enabled(s, a)
    ensures CallsOk(Apply(s, a))
  {
    hide CallsOk, SubsOk, MsgsOk, Owned, OffsetsOk, CancelledOk;
    CallsHeld(s, a);
    CallsReturned(s, a);
    assert CallsOk(Apply(s, a)) by {
      BothOk(Apply(s, a));
    }
  }

  lemma BothOk(s: State)
    requires forall c :: c in s.calls ==> CallOk(s, s.calls[c])
    requires forall i :: 0 <= i < |s.returned| ==> ReturnedOk(s, s.returned[i])
    ensures CallsOk(s)
  {
  }

  lemma CallsHeld(s: State, a: Action)
    requires Inv(s) && Enabled(s, a)
    ensures var t := Apply(s, a); forall c :: c in t.calls ==> CallOk(t, t.calls[c])
  {
    hide SubsOk, Owned, OffsetsOk, ReturnedOk, CancelledOk;
    var t := Apply(s, a);
    if a.Receive? {
      assert s.sent[|s.taken|] == s.queue[0];
      assert MsgOk(s, s.queue[0]);
    }
    forall c | c in t.calls
      ensures CallOk(t, t.calls[c])
    {
      assert c in s.calls ==> CallOk(s, s.calls[c]);
    }
  }

  lemma CallsReturned(s: State, a: Action)
    requires Inv(s) && Enabled(s, a)
    ensures var t := Apply(s, a); forall i :: 0 <= i < |t.returned| ==> ReturnedOk(t, t.returned[i])
  {
    hide SubsOk, Owned, OffsetsOk, MsgsOk, CancelledOk;
    var t := Apply(s, a);
    forall i | 0 <= i < |t.returned|
      ensures ReturnedOk(t, t.returned[i])
    {
      if i < |s.returned| {
        assert ReturnedOk(s, s.returned[i]);
      } else {
        assert CallOk(s, s.calls[a.call]);
      }
    }
  }

  lemma CancelledKept(s: State, a: Action)
    requires Inv(s) && Enabled(s, a)
    ensures CancelledOk(Apply(s, a))
  {
    hide SubsOk, MsgsOk, CallsOk, Owned, OffsetsOk;
  }

  lemma OwnedKept(s: State, a: Action)
    requires Inv(s) && Enabled(s, a)
    ensures Owned(Apply(s, a))
  {
    hide SubsOk, CallsOk;
    if a.Receive? {
      ReceiveOwned(s, a.call);
    } else if a.Return? {
      ReturnOwned(s, a.call);
    } else {
      OthersOwned(s, a);
    }
  }

  lemma OthersOwned(s: State, a: Action)
    requires Owned(s) && Enabled(s, a) && !a.Receive? && !a.Return?
    ensures Owned(Apply(s, a))
  {
    var t := Apply(s, a);
    forall p | 0 <= p < |t.fate|
      ensures FateOk(t, p)
    {
      assert FateOk(s, p);
    }
  }

  lemma ReceiveOwned(s: State, c: nat)
    requires Owned(s) && Enabled(s, Receive(c))
    ensures Owned(Apply(s, Receive(c)))
  {
    var t := Apply(s, Receive(c));
    assert HoldersOk(t) && ReturnsOk(t) by {
      hide FatesOk, FateOk;
    }
    ReceiveFates(s, c);
  }

  lemma ReceiveFates(s: State, c: nat)
    requires FatesOk(s) && |s.fate| == |s.taken| && Enabled(s, Receive(c))
    ensures FatesOk(Apply(s, Receive(c)))
  {
    var t := Apply(s, Receive(c));
    forall p | 0 <= p < |t.fate|
      ensures FateOk(t, p)
    {
      if p < |s.fate| {
        assert FateOk(s, p);
      }
    }
  }

  lemma ReturnOwned(s: State, c: nat)
    requires Owned(s) && Enabled(s, Return(c))
    ensures Owned(Apply(s, Return(c)))
  {
    var t := Apply(s, Return(c));
    forall p | 0 <= p < |t.fate|
      ensures FateOk(t, p)
    {
      assert FateOk(s, p);
    }
  }

  lemma MovedOnce(start: int, moved: seq<Move>, m: Move)
    ensures Lowest(start, moved + [m]) <= Lowest(start, moved) && Lowest(start, moved + [m]) <= Target(m)
  {
    assert (moved + [m])[..|moved|] == moved;
  }

  /** A subreader goes on, its generation staying what it is. */
  ghost predicate Onward(was: Sub, now: Sub) {
    && now.gen == was.gen && was.moved <= now.moved
    && (now.moved == was.moved ==> forall o: int :: Ahead(was, o) ==> Ahead(now, o))
  }

  lemma StillSent(s: State, t: State, m: Msg)
    requires SentOk(s, m) && s.starts <= t.starts && |s.subs| <= |t.subs|
    requires forall i :: 0 <= i < |s.subs| ==> Onward(s.subs[i], t.subs[i])
    ensures SentOk(t, m)
  {
    hide Lowest, Ahead;
  }

  /** Subreaders are started, connect, are moved and go on, and nothing is sent. */
  lemma OffsetsStand(s: State, t: State)
    requires OffsetsOk(s) && t.sent == s.sent && s.starts <= t.starts && |t.starts| == t.version && |s.subs| <= |t.subs|
    requires forall i :: 0 <= i < |s.subs| ==> Onward(s.subs[i], t.subs[i])
    requires forall i :: 0 <= i < |t.subs| ==> StartOk(t, t.subs[i])
    ensures OffsetsOk(t)
  {
    hide SentOk, StartOk, Onward;
    forall i | 0 <= i < |t.sent|
      ensures SentOk(t, t.sent[i])
    {
      StillSent(s, t, s.sent[i]);
    }
  }

  lemma SendOffsets(s: State, i: nat, o: int, failed: bool)
    requires OffsetsOk(s) && i < |s.subs| && s.subs[i].tag.Some?
    requires failed || (s.subs[i].dialed && s.subs[i].at <= o)
    ensures var t := Put(s, Message(s, i, o, failed));
            OffsetsOk(if failed then t else t.(subs := s.subs[i := Past(s.subs[i], o)]))
  {
    hide Lowest;
    var m := Message(s, i, o, failed);
    var t := if failed then Put(s, m) else Put(s, m).(subs := s.subs[i := Past(s.subs[i], o)]);
    assert StartOk(s, s.subs[i]);
    forall k | 0 <= k < |s.sent|
      ensures SentOk(t, s.sent[k]) && Ascending(s.sent[k], m)
    {
      assert SentOk(s, s.sent[k]);
    }
    forall k | 0 <= k < |t.subs|
      ensures StartOk(t, t.subs[k])
    {
      assert StartOk(s, s.subs[k]);
    }
  }

  lemma OffsetsKept(s: State, a: Action)
    requires Inv(s) && Enabled(s, a)
    ensures OffsetsOk(Apply(s, a))
  {
    hide SubsOk, MsgsOk, CallsOk, Owned, OffsetsOk, StartOk;
    if a.Send? {
      SendOffsets(s, a.sub, a.offset, false);
    } else if a.SendError? {
      SendOffsets(s, a.sub, 0, true);
    } else {
      QuietOffsets(s, a);
    }
  }

  /** What a step of its own that sends nothing does to a subreader. */
  lemma OwnOnward(s: State, a: Action)
    requires Enabled(s, a) && OfSub(a) && !a.Send? && StartOk(s, s.subs[a.sub])
    ensures var t := Apply(s, a);
            a.sub < |t.subs| && Onward(s.subs[a.sub], t.subs[a.sub]) && StartOk(t, t.subs[a.sub])
  {
    hide Lowest;
    var u := s.subs[a.sub];
    if a.Moved? {
      MovedOnce(s.starts[u.gen - 1], u.moved, a.move);
    }
  }

  lemma OneOnward(s: State, a: Action, i: nat)
    requires OffsetsOk(s) && Enabled(s, a) && !a.Send? && !a.SendError? && i < |s.subs|
    ensures s.starts <= Apply(s, a).starts && |s.subs| <= |Apply(s, a).subs|
    ensures Onward(s.subs[i], Apply(s, a).subs[i]) && StartOk(Apply(s, a), Apply(s, a).subs[i])
  {
    hide SentOk, Ascending, Lowest, Apply, Enabled;
    assert StartOk(s, s.subs[i]);
    if OfSub(a) {
      OwnIndex(s, a);
      OwnStep(s, a);
      assert StartOk(s, s.subs[a.sub]);
      OwnOnward(s, a);
    } else {
      OtherStep(s, a);
    }
  }

  lemma SpawnedOk(s: State, n: nat, i: nat)
    requires OffsetsOk(s) && Enabled(s, Spawn(n)) && |s.subs| <= i < |s.subs| + n
    ensures StartOk(Apply(s, Spawn(n)), Apply(s, Spawn(n)).subs[i])
  {
  }

  lemma QuietOffsets(s: State, a: Action)
    requires OffsetsOk(s) && Enabled(s, a) && !a.Send? && !a.SendError?
    ensures OffsetsOk(Apply(s, a))
  {
    hide SentOk, Ascending, StartOk, Onward, Lowest;
    var t := Apply(s, a);
    assert s.starts <= t.starts && |s.subs| <= |t.subs|;
    forall i | 0 <= i < |s.subs|
      ensures Onward(s.subs[i], t.subs[i]) && StartOk(t, t.subs[i])
    {
      OneOnward(s, a, i);
    }
    forall i | |s.subs| <= i < |t.subs|
      ensures StartOk(t, t.subs[i])
    {
      SpawnedOk(s, a.n, i);
    }
    OffsetsStand(s, t);
  }

  lemma Kept(s: State, a: Action)
    requires Inv(s) && Enabled(s, a)
    ensures Inv(Apply(s, a))
  {
    hide Apply;
    OffsetsKept(s, a);
    SubsKept(s, a);
    MsgsKept(s, a);
    CallsKept(s, a);
    OwnedKept(s, a);
    CancelledKept(s, a);
  }

  // ---------------------------------------------------------------------
  // Runs
  // ---------------------------------------------------------------------

  ghost predicate Possible(s: State, actions: seq<Action>)
    decreases |actions|
  {
    actions == [] || (Enabled(s, actions[0]) && Possible(Apply(s, actions[0]), actions[1..]))
  }

  function Run(s: State, actions: seq<Action>): State
    requires Possible(s, actions)
    decreases |actions|
  {
    if actions == [] then s else Run(Apply(s, actions[0]), actions[1..])
  }

  lemma {:induction false} RunKeeps(s: State, actions: seq<Action>)
    requires Inv(s) && Possible(s, actions)
    ensures Inv(Run(s, actions))
    decreases |actions|
  {
    hide Inv, Apply, Enabled;
    if actions != [] {
      Kept(s, actions[0]);
      RunKeeps(Apply(s, actions[0]), actions[1..]);
    }
  }

  lemma Started()
    ensures Inv(START)
  {
  }

  /** The at-th message ever sent is with a call, or was returned. */
  ghost predicate Arrived(s: State, at: nat) {
    || (exists c :: c in s.calls && s.calls[c].Holding? && s.calls[c].at == at)
    || (exists i :: 0 <= i < |s.returned| && s.returned[i].at == at)
  }

  /**
   In every run: a message returned without error was sent by a subreader of a
   generation no older than the version the call captured, and a call that moved
   the offset did so with a message of the generation then current.
   */
  lemma Safety(actions: seq<Action>)
    requires Possible(START, actions)
    ensures var s := Run(START, actions);
            && (forall r :: r in s.returned && !r.msg.failed ==> r.captured <= r.msg.gen <= r.version)
            && (forall r :: r in s.returned && r.moved ==> !r.msg.failed && r.msg.gen == r.version)
  {
    hide Run, Possible, SubsOk, MsgsOk, Owned, OffsetsOk, CancelledOk;
    Started();
    RunKeeps(START, actions);
    var s := Run(START, actions);
    assert forall r :: r in s.returned ==> ReturnedOk(s, r);
  }

  // ---------------------------------------------------------------------
  // The offset of the reader
  // ---------------------------------------------------------------------

  /** Where the reader stands: at an offset that was chosen, or behind a message it returned. */
  datatype Position = Chosen(offset: int) | Behind(msg: Msg)

  /**
   What an action makes of it: a choice while the reader is open, and the return of a message to a call of its
   version.
   */
  function Moves(s: State, a: Action, p: Position): Position
    requires Enabled(s, a)
  {
    match a
    case SetOffset(o) => if s.closed then p else Chosen(o)
    case Return(c) => if s.calls[c].captured == s.version && !s.calls[c].msg.failed then Behind(s.calls[c].msg) else p
    case _ => p
  }

  /** The last such action of a run. */
  function LastMove(s: State, actions: seq<Action>, p: Position): Position
    requires Possible(s, actions)
    decreases |actions|
  {
    if actions == [] then p else LastMove(Apply(s, actions[0]), actions[1..], Moves(s, actions[0], p))
  }

  ghost predicate StandsAt(s: State, p: Position) {
    match p
    case Chosen(o) => s.offset == o
    case Behind(m) => s.offset == m.offset + 1 && !m.failed && 1 <= m.gen == s.version && !s.starting
  }

  lemma MovesKept(s: State, a: Action, p: Position)
    requires Inv(s) && Enabled(s, a) && StandsAt(s, p)
    ensures StandsAt(Apply(s, a), Moves(s, a, p))
  {
    hide SubsOk, MsgsOk, Owned, OffsetsOk, CancelledOk;
    if a.Return? {
      assert CallOk(s, s.calls[a.call]);
    }
  }

  lemma {:induction false} RunMoves(s: State, actions: seq<Action>, p: Position)
    requires Inv(s) && Possible(s, actions) && StandsAt(s, p)
    ensures StandsAt(Run(s, actions), LastMove(s, actions, p))
    decreases |actions|
  {
    hide Inv, Apply, Enabled, StandsAt, Moves;
    if actions != [] {
      Kept(s, actions[0]);
      MovesKept(s, actions[0], p);
      RunMoves(Apply(s, actions[0]), actions[1..], Moves(s, actions[0], p));
    }
  }

  /**
   In every run the offset of the reader is the one chosen last while it was
   open, or one past the last message returned without error to a call of the
   then current version, whichever came later; in the latter case that message is
   of the generation current even now.
   */
  lemma OffsetIs(actions: seq<Action>)
    requires Possible(START, actions)
    ensures StandsAt(Run(START, actions), LastMove(START, actions, Chosen(START.offset)))
  {
    Started();
    RunMoves(START, actions, Chosen(START.offset));
  }

  /** SetOffset starts a new generation exactly when the reader is open, was started, and stands elsewhere. */
  lemma RestartsIff(actions: seq<Action>, o: int)
    requires Possible(START, actions) && Enabled(Run(START, actions), SetOffset(o))
    ensures var s := Run(START, actions);
            var at := match LastMove(START, actions, Chosen(START.offset))
                      case Chosen(x) => x
                      case Behind(m) => m.offset + 1;
            && (Apply(s, SetOffset(o)).starting <==> !s.closed && s.version != 0 && o != at)
            && (Apply(s, SetOffset(o)) != s <==> !s.closed && o != at)
  {
    hide Run, Possible, LastMove;
    OffsetIs(actions);
  }

  /**
   In every run messages leave the channel in the order they entered it, no
   message is returned twice, what is returned is what was sent, and of the
   current generation nothing is lost on the way.
   */
  lemma ExactlyOnce(actions: seq<Action>)
    requires Possible(START, actions)
    ensures var s := Run(START, actions);
            && s.taken <= s.sent
            && s.sent == s.taken + s.queue
            && (forall r :: r in s.returned ==> r.at < |s.taken| && r.msg == s.sent[r.at])
            && (forall i, j :: 0 <= i < j < |s.returned| ==> s.returned[i].at != s.returned[j].at)
            && (forall at :: 0 <= at < |s.taken| && s.sent[at].gen == s.version ==> Arrived(s, at))
  {
    hide Run, Possible, SubsOk, CallsOk;
    Started();
    RunKeeps(START, actions);
    var s := Run(START, actions);
    forall at | 0 <= at < |s.taken| && s.sent[at].gen == s.version
      ensures Arrived(s, at)
    {
      assert MsgOk(s, s.sent[at]);
      assert s.sent[at] == s.taken[at];
      assert FateOk(s, at);
    }
  }

  /** Among what came back, the messages of one subreader between two moves ascend in channel order. */
  ghost predicate Climbs(returned: seq<Returned>) {
    forall r, q :: r in returned && q in returned && r.at < q.at ==> Ascending(r.msg, q.msg)
  }

  lemma ReturnedFrom(s: State, r: Returned)
    requires Inv(s) && r in s.returned
    ensures r.at < |s.sent| && r.msg == s.sent[r.at] && SentOk(s, r.msg) && |s.starts| == s.version
    ensures !r.msg.failed ==> r.captured <= r.msg.gen
  {
    hide SubsOk, FateOk, SentOk, CancelledOk;
    assert ReturnedOk(s, r);
    assert r.at < |s.taken| && r.msg == s.taken[r.at] == s.sent[r.at];
    assert SentOk(s, s.sent[r.at]);
  }

  /**
   In every run the offsets a subreader delivers ascend between two moves, and
   none is below the lowest offset it was started at or moved to.
   */
  lemma InOrder(actions: seq<Action>)
    requires Possible(START, actions)
    ensures var s := Run(START, actions);
            && Climbs(s.returned)
            && (forall r :: r in s.returned && !r.msg.failed ==>
                              && 1 <= r.msg.gen <= |s.starts|
                              && Lowest(s.starts[r.msg.gen - 1], r.msg.moved) <= r.msg.offset)
  {
    hide Run, Possible, SubsOk, CallsOk, FateOk, Lowest, Owned, CancelledOk, MsgsOk;
    Started();
    RunKeeps(START, actions);
    var s := Run(START, actions);
    forall r | r in s.returned
      ensures r.at < |s.sent| && r.msg == s.sent[r.at] && SentOk(s, r.msg)
    {
      ReturnedFrom(s, r);
    }
  }

  // ---------------------------------------------------------------------
  // Close
  // ---------------------------------------------------------------------

  /** Closed at version v, with its context cancelled. */
  ghost predicate Down(s: State, v: nat) {
    s.closed && !s.starting && s.version == v && v in s.cancelled
  }

  lemma DownKept(s: State, a: Action, v: nat)
    requires Down(s, v) && Enabled(s, a)
    ensures Down(Apply(s, a), v)
  {
  }

  lemma {:induction false} RunDown(s: State, actions: seq<Action>, v: nat)
    requires Inv(s) && Down(s, v) && Possible(s, actions)
    ensures Inv(Run(s, actions)) && Down(Run(s, actions), v)
    decreases |actions|
  {
    hide Inv, Apply, Enabled, Down;
    if actions != [] {
      Kept(s, actions[0]);
      DownKept(s, actions[0], v);
      RunDown(Apply(s, actions[0]), actions[1..], v);
    }
  }

  /** After Close, whatever happens: no generation is started any more and no subreader connects. */
  lemma CloseStops(before: seq<Action>, after: seq<Action>)
    requires Possible(START, before) && Enabled(Run(START, before), SetClosed)
    requires Enabled(Apply(Run(START, before), SetClosed), CancelOnClose)
    requires Possible(Apply(Apply(Run(START, before), SetClosed), CancelOnClose), after)
    ensures var s := Run(START, before);
            var u := Run(Apply(Apply(s, SetClosed), CancelOnClose), after);
            && u.version == s.version && !u.starting
            && forall i, start :: !Enabled(u, Dial(i, start))
  {
    hide Run, Possible, MsgsOk, CallsOk, Owned, OffsetsOk;
    Started();
    RunKeeps(START, before);
    var s := Run(START, before);
    Kept(s, SetClosed);
    Kept(Apply(s, SetClosed), CancelOnClose);
    var t := Apply(Apply(s, SetClosed), CancelOnClose);
    RunDown(t, after, s.version);
    var u := Run(t, after);
    forall i: nat, start: nat | i < |u.subs|
      ensures !Enabled(u, Dial(i, start))
    {
      assert SubOk(u, u.subs[i]);
    }
  }
}
