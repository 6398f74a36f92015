/**
 The consumer-group loop of a Reader (reader.go) with the goroutines it
 starts: a run group of heartbeat, commit and watcher loops (rungroup.go) and
 the subreaders of the subscription.  Actions are the atomic steps of the loop,
 of every goroutine and of Close, in any interleaving; what the coordinator
 answers is an argument of the action.
 */
module GroupLifecycle {
  import opened Collections

  datatype Membership = Membership(generation: int, member: string)

  datatype Kind = Heartbeat | Commit | Watch

  /** A goroutine of the run group, and the membership it read for the request it is about to send. */
  datatype Worker = Worker(kind: Kind, alive: bool, read: Option<Membership>)

  /** A subreader, the context it runs under, and the membership it was started for. */
  datatype Sub = Sub(context: nat, alive: bool, membership: Membership)

  /** Where the loop is: the steps of run and handshake in order. */
  datatype Phase =
    | Unsubscribe | Drain | Refresh | Connect
    | Join | Joining | Assign | Sync
    | GoHeartbeat | GoCommit | GoWatch | Subscribe
    | Stopping | Waiting
    | Ending(connected: bool) | Done

  /** What goes out of the reader, and what join the coordinator granted. */
  datatype Event =
    | JoinRequest(member: string)
    | Granted(membership: Membership)
    | Request(kind: Kind, membership: Membership)
    | Delivered(membership: Membership)
    | LeaveRequest(member: string)

  datatype State = State(
    phase: Phase,
    membership: Membership,
    closed: bool,            // the flag set by Close under the mutex
    stopped: bool,           // stctx is done
    context: nat,            // the context behind r.cancel
    cancelled: set<nat>,
    count: int,              // the wait group of the current run group
    groupCancelled: bool,    // the context of the current run group
    first: nat,              // the loops of the current run group are those from here on
    workers: seq<Worker>,
    subs: seq<Sub>,
    log: seq<Event>)

  datatype JoinReply = Joined(membership: Membership) | UnknownMember | Refused

  datatype Action =
    | Cancel
    | JoinWait
    | Refreshed(ok: bool)
    | Connected(ok: bool)
    | SendJoin(ok: bool)
    | JoinAnswered(reply: JoinReply)
    | Assigned(ok: bool)
    | SyncAnswered(ok: bool, unknownMember: bool, leave: bool)
    | Go(watch: bool)
    | Subscribed(ok: bool, n: nat)
    | GroupWait
    | EndHandshake
    | ReadMembership(worker: nat)
    | SendRequest(worker: nat)
    | Exit(worker: nat, failed: bool)
    | Deliver(sub: nat)
    | SubExit(sub: nat)
    | CloseFlag
    | CloseCancel
    | CloseStop

  const START := State(Unsubscribe, Membership(0, ""), false, false, 0, {}, 0, false, 0, [], [], [])

  predicate NoWorkers(s: State) {
    forall i :: 0 <= i < |s.workers| ==> !s.workers[i].alive
  }

  predicate NoSubs(s: State) {
    forall i :: 0 <= i < |s.subs| ==> !s.subs[i].alive
  }

  /** The context of the run group is derived from that of the reader. */
  predicate GroupDone(s: State) {
    s.groupCancelled || s.stopped
  }

  predicate Enabled(s: State, a: Action) {
    match a
    case Cancel => s.phase == Unsubscribe
    case JoinWait => s.phase == Drain && NoSubs(s)
    case Refreshed(ok) => s.phase == Refresh && (ok || s.stopped)
    case Connected(_) => s.phase == Connect
    case SendJoin(_) => s.phase == Join
    case JoinAnswered(_) => s.phase == Joining
    case Assigned(_) => s.phase == Assign
    case SyncAnswered(_, _, _) => s.phase == Sync
    case Go(_) => s.phase.GoHeartbeat? || s.phase.GoCommit? || s.phase.GoWatch?
    case Subscribed(_, _) => s.phase == Subscribe
    case GroupWait => (s.phase.Stopping? || s.phase.Waiting?) && s.count == 0
    case EndHandshake => s.phase.Ending?
    case ReadMembership(i) => i < |s.workers| && s.workers[i].alive && !s.workers[i].kind.Watch?
    case SendRequest(i) => i < |s.workers| && s.workers[i].alive && s.workers[i].read.Some?
    // A loop ends by an error of its own at any time, or because its context is done.
    case Exit(i, failed) => i < |s.workers| && s.workers[i].alive && (failed || GroupDone(s))
    // A send may be chosen although the context is done.
    case Deliver(i) => i < |s.subs| && s.subs[i].alive
    // The main loop of a subreader ends only when its context is cancelled.
    case SubExit(i) => i < |s.subs| && s.subs[i].alive && s.subs[i].context in s.cancelled
    case CloseFlag => true
    case CloseCancel => s.closed
    case CloseStop => s.closed
  }

  function Say(s: State, e: Event): State {
    s.(log := s.log + [e])
  }

  /** runGroup.Go: the wait group counts the goroutine. */
  function Spawn(s: State, kind: Kind, next: Phase): State {
    s.(workers := s.workers + [Worker(kind, true, None)], count := s.count + 1, phase := next)
  }

  /** Reader.start for a subscription to n partitions. */
  function Start(s: State, n: nat): State {
    if s.closed then s
    else s.(cancelled := s.cancelled + {s.context}, context := s.context + 1,
            subs := s.subs + seq(n, _ => Sub(s.context + 1, true, s.membership)))
  }

  function JoinStep(s: State, reply: JoinReply): State {
    match reply
    case Joined(m) => Say(s.(membership := m, phase := Assign), Granted(m))
    case UnknownMember => s.(membership := s.membership.(member := ""), phase := Ending(true))
    case Refused => s.(phase := Ending(true))
  }

  function SyncStep(s: State, ok: bool, unknownMember: bool, leave: bool): State {
    if ok then s.(phase := GoHeartbeat, count := 0, groupCancelled := false, first := |s.workers|)
    else
      var t := if unknownMember then s.(membership := s.membership.(member := "")) else s;
      var u := if unknownMember || leave then Say(t, LeaveRequest(t.membership.member)) else t;
      u.(phase := Ending(true))
  }

  function SubscribeStep(s: State, ok: bool, n: nat): State {
    if !ok then s.(groupCancelled := true, phase := Stopping)
    else if n == 0 then s.(phase := Waiting)
    else Start(s, n).(phase := Waiting)
  }

  /** The deferred end of handshake and the test of run's loop. */
  function EndStep(s: State, connected: bool): State {
    var t := if connected && s.stopped then Say(s, LeaveRequest(s.membership.member)) else s;
    t.(phase := if s.stopped then Done else Unsubscribe)
  }

  function ReadStep(s: State, i: nat): State
    requires i < |s.workers|
  {
    if s.workers[i].kind.Heartbeat? && s.membership == Membership(0, "") then s
    else s.(workers := s.workers[i := s.workers[i].(read := Some(s.membership))])
  }

  function Apply(s: State, a: Action): State
    requires Enabled(s, a)
  {
    match a
    case Cancel => s.(cancelled := s.cancelled + {s.context}, phase := Drain)
    case JoinWait => s.(phase := Refresh)
    case Refreshed(ok) => s.(phase := if ok then Connect else Ending(false))
    case Connected(ok) => s.(phase := if ok then Join else Ending(false))
    case SendJoin(ok) => if ok then Say(s.(phase := Joining), JoinRequest(s.membership.member))
        else s.(phase := Ending(true))
    case JoinAnswered(reply) => JoinStep(s, reply)
    case Assigned(ok) => if ok then s.(phase := Sync)
        else Say(s.(phase := Ending(true)), LeaveRequest(s.membership.member))
    case SyncAnswered(ok, unknown, leave) => SyncStep(s, ok, unknown, leave)
    case Go(watch) =>
      if s.phase == GoHeartbeat then Spawn(s, Heartbeat, GoCommit)
      else if s.phase == GoCommit then Spawn(s, Commit, GoWatch)
      else if watch then Spawn(s, Watch, Subscribe)
      else s.(phase := Subscribe)
    case Subscribed(ok, n) => SubscribeStep(s, ok, n)
    case GroupWait => s.(phase := Ending(true))
    case EndHandshake => EndStep(s, s.phase.connected)
    case ReadMembership(i) => ReadStep(s, i)
    case SendRequest(i) =>
      Say(s.(workers := s.workers[i := s.workers[i].(read := None)]),
          Request(s.workers[i].kind, s.workers[i].read.value))
    // The deferred cancel, then the deferred Done.
    case Exit(i, _) =>
      s.(workers := s.workers[i := s.workers[i].(alive := false)], count := s.count - 1, groupCancelled := true)
    case Deliver(i) => Say(s, Delivered(s.subs[i].membership))
    case SubExit(i) => s.(subs := s.subs[i := s.subs[i].(alive := false)])
    case CloseFlag => s.(closed := true)
    case CloseCancel => s.(cancelled := s.cancelled + {s.context})
    case CloseStop => s.(stopped := true)
  }

  // ---------------------------------------------------------------------
  // The invariant
  // ---------------------------------------------------------------------

  /** The membership under which the reader may act: that of the last join, unless it is joining again. */
  function Active(log: seq<Event>): Option<Membership>
    decreases |log|
  {
    if log == [] then None
    else
      match log[|log| - 1]
      case JoinRequest(_) => None
      case Granted(m) => Some(m)
      case _ => Active(log[..|log| - 1])
  }

  /** Heartbeats, commits and deliveries happen under the membership active at that moment. */
  ghost predicate EventOk(log: seq<Event>, i: nat)
    requires i < |log|
  {
    match log[i]
    case Request(_, m) => Active(log[..i]) == Some(m)
    case Delivered(m) => Active(log[..i]) == Some(m)
    case _ => true
  }

  ghost predicate LogOk(log: seq<Event>) {
    forall i :: 0 <= i < |log| ==> EventOk(log, i)
  }

  predicate Running(p: Phase) {
    p.GoHeartbeat? || p.GoCommit? || p.GoWatch? || p.Subscribe? || p.Stopping? || p.Waiting?
  }

  /** The phases in which subreaders may be alive. */
  predicate Subscribing(p: Phase) {
    p.Ending? || p.Waiting? || p.Unsubscribe? || p.Drain? || p.Done?
  }

  /** The loops already started in phase p. */
  predicate Started(p: Phase, k: Kind) {
    match k
    case Heartbeat => p.GoCommit? || p.GoWatch? || p.Subscribe? || p.Stopping? || p.Waiting?
    case Commit => p.GoWatch? || p.Subscribe? || p.Stopping? || p.Waiting?
    case Watch => p.Subscribe? || p.Stopping? || p.Waiting?
  }

  ghost predicate WorkerOk(s: State, w: Worker) {
    w.alive ==> Started(s.phase, w.kind) && (w.read.Some? ==> w.read.value == s.membership)
  }

  /** How many loops are alive. */
  function Alive(workers: seq<Worker>): nat {
    if workers == [] then 0
    else Alive(workers[..|workers| - 1]) + if workers[|workers| - 1].alive then 1 else 0
  }

  lemma {:induction false} AliveUpdate(ws: seq<Worker>, i: nat, w: Worker)
    requires i < |ws|
    ensures Alive(ws[i := w]) == Alive(ws) + (if w.alive then 1 else 0) - (if ws[i].alive then 1 else 0)
    decreases |ws|
  {
    var n := |ws| - 1;
    if i == n {
      assert ws[i := w][..n] == ws[..n];
    } else {
      AliveUpdate(ws[..n], i, w);
      assert ws[i := w][..n] == ws[..n][i := w];
    }
  }

  lemma AliveAppend(ws: seq<Worker>, w: Worker)
    ensures Alive(ws + [w]) == Alive(ws) + if w.alive then 1 else 0
  {
    assert (ws + [w])[..|ws|] == ws;
  }

  lemma {:induction false} AliveNone(ws: seq<Worker>)
    ensures Alive(ws) == 0 <==> forall i :: 0 <= i < |ws| ==> !ws[i].alive
    decreases |ws|
  {
    if ws != [] {
      AliveNone(ws[..|ws| - 1]);
    }
  }

  /** Once the run group is in use, its wait group counts exactly the loops that are alive. */
  ghost predicate Counted(s: State) {
    && (Running(s.phase) ==> s.count == Alive(s.workers))
    && (!Running(s.phase) ==> Alive(s.workers) == 0)
    && (s.phase == Stopping ==> s.groupCancelled)
  }

  /** A loop of the current run group has ended. */
  ghost predicate SomeEnded(s: State) {
    exists i :: s.first <= i < |s.workers| && !s.workers[i].alive
  }

  /** A run group in use is cancelled exactly when a loop of it has ended or the subscription failed. */
  ghost predicate CancelOk(s: State) {
    && s.first <= |s.workers|
    && (forall i :: 0 <= i < s.first ==> !s.workers[i].alive)
    && (Running(s.phase) ==> (s.groupCancelled <==> s.phase == Stopping || SomeEnded(s)))
  }

  /** Older contexts of subreaders are cancelled, and there are no later ones than the current. */
  ghost predicate ContextsOk(s: State) {
    && (forall c :: c in s.cancelled ==> c <= s.context)
    && (forall i :: 0 <= i < |s.subs| ==>
                      s.subs[i].context <= s.context
                          && (s.subs[i].context < s.context ==> s.subs[i].context in s.cancelled))
  }

  ghost predicate WorkersOk(s: State) {
    && (forall i :: 0 <= i < |s.workers| ==> WorkerOk(s, s.workers[i]))
    && (forall i, j :: 0 <= i < j < |s.workers| && s.workers[i].alive && s.workers[j].alive ==>
                         s.workers[i].kind != s.workers[j].kind)
  }

  ghost predicate SubOk(s: State, u: Sub) {
    u.alive ==> Subscribing(s.phase) && Active(s.log) == Some(u.membership)
  }

  ghost predicate SubsOk(s: State) {
    forall i :: 0 <= i < |s.subs| ==> SubOk(s, s.subs[i])
  }

  ghost predicate Inv(s: State) {
    && LogOk(s.log)
    && WorkersOk(s)
    && SubsOk(s)
    && Counted(s)
    && CancelOk(s)
    && ContextsOk(s)
    && (Running(s.phase) || s.phase.Assign? || s.phase.Sync? ==> Active(s.log) == Some(s.membership))
  }

  // ---------------------------------------------------------------------
  // Every action keeps it
  // ---------------------------------------------------------------------

  lemma ActiveSay(log: seq<Event>, e: Event)
    ensures Active(log + [e]) == match e
                                 case JoinRequest(_) => None
                                 case Granted(m) => Some(m)
                                 case _ => Active(log)
  {
    assert (log + [e])[..|log|] == log;
  }

  lemma LogSay(log: seq<Event>, e: Event)
    requires LogOk(log)
    requires e.Request? || e.Delivered? ==> Active(log) == Some(e.membership)
    ensures LogOk(log + [e])
  {
    hide Active;
    var all := log + [e];
    forall i | 0 <= i < |all|
      ensures EventOk(all, i)
    {
      assert all[..i] == log[..i];
      if i < |log| {
        assert EventOk(log, i);
      } else {
        assert log[..i] == log;
      }
    }
  }

  /** What an action adds to the log. */
  function Said(s: State, a: Action): seq<Event>
    requires Enabled(s, a)
  {
    match a
    case SendJoin(true) => [JoinRequest(s.membership.member)]
    case JoinAnswered(Joined(m)) => [Granted(m)]
    case Assigned(false) => [LeaveRequest(s.membership.member)]
    case SyncAnswered(false, unknown, leave) =>
      if unknown then [LeaveRequest("")] else if leave then [LeaveRequest(s.membership.member)] else []
    case EndHandshake => if s.phase.connected && s.stopped then [LeaveRequest(s.membership.member)] else []
    case SendRequest(i) => [Request(s.workers[i].kind, s.workers[i].read.value)]
    case Deliver(i) => [Delivered(s.subs[i].membership)]
    case _ => []
  }

  /** The actions of the group loop up to the start of its goroutines. */
  predicate Joins(a: Action) {
    a.SendJoin? || a.JoinAnswered? || a.Assigned? || a.SyncAnswered?
  }

  lemma JoinsLogOf(s: State, a: Action)
    requires Enabled(s, a) && Joins(a)
    ensures Apply(s, a).log == s.log + Said(s, a)
  {
    hide Active, NoWorkers, NoSubs;
  }

  lemma LogOf(s: State, a: Action)
    requires Enabled(s, a)
    ensures Apply(s, a).log == s.log + Said(s, a)
  {
    hide Active, NoWorkers, NoSubs, JoinStep, SyncStep;
    if Joins(a) {
      JoinsLogOf(s, a);
    }
  }

  lemma LogKept(s: State, a: Action)
    requires Inv(s) && Enabled(s, a)
    ensures LogOk(Apply(s, a).log)
    ensures Active(Apply(s, a).log) == match a
                                       case SendJoin(true) => None
                                       case JoinAnswered(Joined(m)) => Some(m)
                                       case _ => Active(s.log)
  {
    hide Active, Apply, LogOk, EventOk, Counted;
    LogOf(s, a);
    var said := Said(s, a);
    if said == [] {
      assert s.log + [] == s.log;
    } else {
      if a.SendRequest? {
        assert WorkerOk(s, s.workers[a.worker]);
      } else if a.Deliver? {
        assert SubOk(s, s.subs[a.sub]);
      }
      LogSay(s.log, said[0]);
      ActiveSay(s.log, said[0]);
      assert said == [said[0]];
    }
  }

  predicate OfWorkers(a: Action) {
    a.Go? || a.ReadMembership? || a.SendRequest? || a.Exit?
  }

  /** While loops are alive, the group loop waits for them and the membership stands still. */
  lemma OtherSteps(s: State, a: Action)
    requires Enabled(s, a) && !OfWorkers(a)
    ensures Apply(s, a).workers == s.workers
    ensures forall k :: Started(s.phase, k) ==>
                          s.count == 0 || (Started(Apply(s, a).phase, k) && Apply(s, a).membership == s.membership)
  {
    hide Active, NoWorkers, NoSubs, JoinStep, SyncStep;
    if Joins(a) {
      JoinCounts(s, a);
    }
  }

  lemma OthersKeep(s: State, a: Action)
    requires Inv(s) && Enabled(s, a) && !OfWorkers(a)
    ensures WorkersOk(Apply(s, a))
  {
    hide Active, Apply, Started, LogOk, SubsOk, Alive;
    OtherSteps(s, a);
    AliveNone(s.workers);
    var t := Apply(s, a);
    forall i | 0 <= i < |t.workers|
      ensures WorkerOk(t, t.workers[i])
    {
      assert WorkerOk(s, s.workers[i]);
    }
  }

  /** The steps of the loops themselves. */
  lemma WorkerSteps(s: State, a: Action)
    requires WorkersOk(s) && Enabled(s, a) && OfWorkers(a) && !a.Go?
    ensures WorkersOk(Apply(s, a))
  {
    WorkerMoves(s, a);
    hide Apply, Enabled, Started;
    var t := Apply(s, a);
    forall i | 0 <= i < |t.workers|
      ensures WorkerOk(t, t.workers[i])
    {
      assert WorkerOk(s, s.workers[i]);
    }
  }

  lemma WorkerMoves(s: State, a: Action)
    requires Enabled(s, a) && OfWorkers(a) && !a.Go?
    ensures var t := Apply(s, a);
            && |t.workers| == |s.workers| && t.phase == s.phase && t.membership == s.membership
            && forall i :: 0 <= i < |t.workers| ==>
                             && t.workers[i].kind == s.workers[i].kind
                             && (t.workers[i].alive ==> s.workers[i].alive)
                             && (t.workers[i].read.Some? ==> t.workers[i].read in {s.workers[i].read,
                                                                                   Some(s.membership)})
  {
    hide NoWorkers, NoSubs, JoinStep, SyncStep, Start, SubscribeStep, EndStep, Spawn;
  }

  lemma SpawnKeeps(s: State, kind: Kind, next: Phase)
    requires WorkersOk(s) && !Started(s.phase, kind) && Started(next, kind)
    requires forall k :: Started(s.phase, k) ==> Started(next, k)
    ensures WorkersOk(Spawn(s, kind, next))
  {
    hide Started;
    var t := Spawn(s, kind, next);
    forall i | 0 <= i < |t.workers|
      ensures WorkerOk(t, t.workers[i])
      ensures i < |s.workers| ==> t.workers[i] == s.workers[i] && WorkerOk(s, s.workers[i])
    {
      if i < |s.workers| {
        assert WorkerOk(s, s.workers[i]);
      }
    }
  }

  lemma GoStep(s: State, watch: bool)
    requires WorkersOk(s) && Enabled(s, Go(watch))
    ensures WorkersOk(Apply(s, Go(watch)))
  {
    if s.phase == GoHeartbeat {
      SpawnKeeps(s, Heartbeat, GoCommit);
    } else if s.phase == GoCommit {
      SpawnKeeps(s, Commit, GoWatch);
    } else if watch {
      SpawnKeeps(s, Watch, Subscribe);
    } else {
      var t := s.(phase := Subscribe);
      forall i | 0 <= i < |t.workers|
        ensures WorkerOk(t, t.workers[i])
      {
        assert WorkerOk(s, s.workers[i]);
      }
    }
  }

  lemma WorkersKept(s: State, a: Action)
    requires Inv(s) && Enabled(s, a)
    ensures WorkersOk(Apply(s, a))
  {
    hide Active, Apply, LogOk, SubsOk, WorkersOk;
    if a.Go? {
      GoStep(s, a.watch);
    } else if OfWorkers(a) {
      WorkerSteps(s, a);
    } else {
      OthersKeep(s, a);
    }
  }

  lemma CountedKept(s: State, a: Action)
    requires Inv(s) && Enabled(s, a)
    ensures Counted(Apply(s, a))
  {
    hide Active, LogOk, SubsOk, WorkersOk, Alive, NoSubs;
    if a.Exit? {
      AliveUpdate(s.workers, a.worker, s.workers[a.worker].(alive := false));
    } else if a.ReadMembership? {
      AliveUpdate(s.workers, a.worker, s.workers[a.worker].(read := Some(s.membership)));
    } else if a.SendRequest? {
      AliveUpdate(s.workers, a.worker, s.workers[a.worker].(read := None));
    } else if a.Go? {
      AliveAppend(s.workers, Worker(Heartbeat, true, None));
      AliveAppend(s.workers, Worker(Commit, true, None));
      AliveAppend(s.workers, Worker(Watch, true, None));
    } else {
      OthersCount(s, a);
    }
  }

  /** How the count of the run group and the phase move, the loops standing still. */
  predicate CountsStep(s: State, t: State) {
    && t.workers == s.workers
    && (Running(t.phase) ==> if s.phase == Sync then t.count == 0 else Running(s.phase) && t.count == s.count)
    && (Running(s.phase) && s.count != 0 ==> Running(t.phase))
  }

  lemma JoinCounts(s: State, a: Action)
    requires Enabled(s, a) && Joins(a)
    ensures CountsStep(s, Apply(s, a))
  {
    hide Active, NoWorkers, NoSubs;
  }

  lemma OtherCounts(s: State, a: Action)
    requires Enabled(s, a) && !OfWorkers(a)
    ensures CountsStep(s, Apply(s, a))
  {
    hide Active, NoWorkers, NoSubs, JoinStep, SyncStep;
    if Joins(a) {
      JoinCounts(s, a);
    }
  }

  lemma OtherCancels(s: State, a: Action)
    requires Enabled(s, a) && !OfWorkers(a)
    ensures Apply(s, a).phase == Stopping ==> Apply(s, a).groupCancelled || s.phase == Stopping
    ensures s.phase == Stopping ==> Apply(s, a).groupCancelled == s.groupCancelled
  {
    hide Active, NoWorkers, NoSubs;
  }

  lemma OthersCount(s: State, a: Action)
    requires Counted(s) && Enabled(s, a) && !OfWorkers(a)
    ensures Counted(Apply(s, a))
  {
    hide Apply, Enabled, Alive, Started;
    OtherCounts(s, a);
    OtherCancels(s, a);
  }

  /** The actions that touch the run group. */
  predicate OfGroup(a: Action) {
    OfWorkers(a) || a.SyncAnswered? || a.Subscribed?
  }

  lemma JoinsLeave(s: State, a: Action)
    requires Enabled(s, a) && Joins(a) && !OfGroup(a)
    ensures var t := Apply(s, a);
            && t.workers == s.workers && t.first == s.first && t.groupCancelled == s.groupCancelled
            && (Running(t.phase) ==> t.phase == s.phase)
  {
    hide Active, NoWorkers, NoSubs, Start, SubscribeStep, SyncStep, Spawn, ReadStep, EndStep, GroupDone;
  }

  lemma OthersLeave(s: State, a: Action)
    requires Enabled(s, a) && !OfGroup(a)
    ensures var t := Apply(s, a);
            && t.workers == s.workers && t.first == s.first && t.groupCancelled == s.groupCancelled
            && (Running(t.phase) ==> t.phase == s.phase)
  {
    if Joins(a) {
      JoinsLeave(s, a);
    } else {
      hide Active, NoWorkers, NoSubs, Start, SubscribeStep, SyncStep, JoinStep, Spawn, ReadStep, GroupDone;
    }
  }

  /** Loops are added, or change what they have read. */
  ghost predicate Grows(s: State, t: State) {
    && |s.workers| <= |t.workers|
    && (forall i :: 0 <= i < |t.workers| ==> t.workers[i].alive == (|s.workers| <= i || s.workers[i].alive))
  }

  lemma GrowsKept(s: State, t: State)
    requires CancelOk(s) && Grows(s, t) && Running(s.phase) && s.phase != Stopping
    requires t.first == s.first && Running(t.phase) && t.groupCancelled == (s.groupCancelled || t.phase == Stopping)
    ensures CancelOk(t)
  {
    if SomeEnded(s) {
      var i :| s.first <= i < |s.workers| && !s.workers[i].alive;
      assert !t.workers[i].alive;
    }
  }

  lemma GoCancels(s: State, watch: bool)
    requires CancelOk(s) && Enabled(s, Go(watch))
    ensures CancelOk(Apply(s, Go(watch)))
  {
    hide CancelOk;
    GrowsKept(s, Apply(s, Go(watch)));
  }

  lemma ReadCancels(s: State, a: Action)
    requires CancelOk(s) && Enabled(s, a) && (a.ReadMembership? || a.SendRequest?)
    ensures CancelOk(Apply(s, a))
  {
    hide Active, NoWorkers, NoSubs;
    var t := Apply(s, a);
    assert Grows(s, t) && t == s.(workers := t.workers, log := t.log);
    if SomeEnded(s) {
      var i :| s.first <= i < |s.workers| && !s.workers[i].alive;
      assert !t.workers[i].alive;
    }
  }

  lemma SyncCancels(s: State, a: Action)
    requires CancelOk(s) && Counted(s) && Enabled(s, a) && a.SyncAnswered?
    ensures CancelOk(Apply(s, a))
  {
    hide Active, NoWorkers, NoSubs, Alive;
    AliveNone(s.workers);
  }

  lemma SubscribedCancels(s: State, a: Action)
    requires CancelOk(s) && Enabled(s, a) && a.Subscribed?
    ensures CancelOk(Apply(s, a))
  {
    hide CancelOk;
    GrowsKept(s, Apply(s, a));
  }

  lemma ExitCancels(s: State, i: nat, failed: bool)
    requires CancelOk(s) && Counted(s) && Enabled(s, Exit(i, failed))
    ensures CancelOk(Apply(s, Exit(i, failed))) && SomeEnded(Apply(s, Exit(i, failed)))
  {
    hide Active, NoWorkers, NoSubs, Alive;
    var t := Apply(s, Exit(i, failed));
    AliveNone(s.workers);
    assert !t.workers[i].alive && s.first <= i;
  }

  lemma CancelKept(s: State, a: Action)
    requires Inv(s) && Enabled(s, a)
    ensures CancelOk(Apply(s, a))
  {
    hide Active, Apply, LogOk, SubsOk, WorkersOk, Counted, Enabled, ContextsOk;
    if a.Exit? {
      ExitCancels(s, a.worker, a.failed);
    } else if a.Go? {
      GoCancels(s, a.watch);
    } else if a.SyncAnswered? {
      SyncCancels(s, a);
    } else if a.Subscribed? {
      SubscribedCancels(s, a);
    } else if OfWorkers(a) {
      ReadCancels(s, a);
    } else {
      OthersLeave(s, a);
    }
  }

  /** The actions that touch the subreaders and their contexts. */
  predicate OfSubs(a: Action) {
    a.Cancel? || a.Subscribed? || a.SubExit? || a.CloseCancel?
  }

  lemma OthersIgnore(s: State, a: Action)
    requires Enabled(s, a) && !OfSubs(a)
    ensures var t := Apply(s, a); t.subs == s.subs && t.context == s.context && t.cancelled == s.cancelled
  {
    if Joins(a) {
      JoinsIgnore(s, a);
    } else if OfWorkers(a) {
      WorkersIgnore(s, a);
    } else {
      hide Active, NoWorkers, NoSubs, Start, SubscribeStep, JoinStep, SyncStep, Spawn, ReadStep, GroupDone;
    }
  }

  lemma JoinsIgnore(s: State, a: Action)
    requires Enabled(s, a) && Joins(a)
    ensures var t := Apply(s, a); t.subs == s.subs && t.context == s.context && t.cancelled == s.cancelled
  {
    hide Active, NoWorkers, NoSubs, Start, SubscribeStep, Spawn, ReadStep, GroupDone;
  }

  lemma WorkersIgnore(s: State, a: Action)
    requires Enabled(s, a) && OfWorkers(a)
    ensures var t := Apply(s, a); t.subs == s.subs && t.context == s.context && t.cancelled == s.cancelled
  {
    hide Active, NoWorkers, NoSubs, Start, SubscribeStep, JoinStep, SyncStep, EndStep, GroupDone;
  }

  lemma ContextsKept(s: State, a: Action)
    requires ContextsOk(s) && Enabled(s, a)
    ensures ContextsOk(Apply(s, a))
  {
    if !OfSubs(a) {
      hide Active, Enabled, Apply;
      OthersIgnore(s, a);
    } else {
      hide Active, NoWorkers, NoSubs, SyncStep, JoinStep, EndStep, Spawn, ReadStep;
    }
  }

  /** While subreaders may be alive the loop is not joining, and it waits for them before it does. */
  lemma OthersStay(s: State, a: Action)
    requires Enabled(s, a) && !OfSubs(a)
    ensures Subscribing(s.phase) && !a.JoinWait? ==> Subscribing(Apply(s, a).phase) && !a.SendJoin? && !a.JoinAnswered?
    ensures a.JoinWait? ==> NoSubs(s)
  {
    hide Active, NoWorkers, NoSubs, Start, SubscribeStep, GroupDone;
  }

  lemma SubsStay(s: State, a: Action)
    requires Inv(s) && Enabled(s, a) && !OfSubs(a)
    ensures SubsOk(Apply(s, a))
  {
    hide Active, LogOk, WorkersOk, WorkerOk, NoWorkers, Counted, Apply, Enabled, CancelOk, ContextsOk, Subscribing;
    LogKept(s, a);
    OthersIgnore(s, a);
    OthersStay(s, a);
    var t := Apply(s, a);
    forall i | 0 <= i < |t.subs|
      ensures SubOk(t, t.subs[i])
    {
      assert SubOk(s, s.subs[i]);
    }
  }

  lemma SubsKept(s: State, a: Action)
    requires Inv(s) && Enabled(s, a)
    ensures SubsOk(Apply(s, a))
  {
    hide Active, LogOk, WorkersOk, WorkerOk, NoWorkers, Counted, CancelOk, ContextsOk, Joins;
    if !OfSubs(a) {
      SubsStay(s, a);
    } else {
      LogKept(s, a);
      var t := Apply(s, a);
      forall i | 0 <= i < |t.subs|
        ensures SubOk(t, t.subs[i])
      {
        if i < |s.subs| {
          assert SubOk(s, s.subs[i]);
        }
      }
    }
  }

  lemma ActiveKept(s: State, a: Action)
    requires Inv(s) && Enabled(s, a)
    ensures var t := Apply(s, a);
            Running(t.phase) || t.phase.Assign? || t.phase.Sync? ==> Active(t.log) == Some(t.membership)
  {
    hide Active, LogOk, WorkersOk, SubsOk, Counted;
    LogKept(s, a);
  }

  lemma Kept(s: State, a: Action)
    requires Inv(s) && Enabled(s, a)
    ensures Inv(Apply(s, a))
  {
    hide Active, Apply, LogOk, WorkersOk, SubsOk, Counted, CancelOk, ContextsOk;
    LogKept(s, a);
    CountedKept(s, a);
    CancelKept(s, a);
    ContextsKept(s, a);
    WorkersKept(s, a);
    SubsKept(s, a);
    ActiveKept(s, a);
  }

  // ---------------------------------------------------------------------
  // Runs
  // ---------------------------------------------------------------------

  ghost predicate Possible(s: State, actions: seq<Action>)
    decreases |actions|
  {
    actions == [] || (Enabled(s, actions[0]) && Possible(Apply(s, actions[0]), actions[1..]))
  }

  function Run(s: State, actions: seq<Action>): State
    requires Possible(s, actions)
    decreases |actions|
  {
    if actions == [] then s else Run(Apply(s, actions[0]), actions[1..])
  }

  lemma {:induction false} RunKeeps(s: State, actions: seq<Action>)
    requires Inv(s) && Possible(s, actions)
    ensures Inv(Run(s, actions))
    decreases |actions|
  {
    hide Inv, Apply, Enabled;
    if actions != [] {
      Kept(s, actions[0]);
      RunKeeps(Apply(s, actions[0]), actions[1..]);
    }
  }

  /**
   In every run of the group loop: when a JoinGroup request goes out, and until
   it is answered, no loop and no subreader of an earlier join is alive; there
   is never more than one loop of a kind, so one commit loop at most owns the
   stash; and every heartbeat, offset commit and delivered message belongs to
   the membership granted by the join before it, with no newer JoinGroup request
   in between.
   */
  lemma Safety(actions: seq<Action>)
    requires Possible(START, actions)
    ensures var s := Run(START, actions);
            && ((s.phase.Join? || s.phase.Joining? || s.phase.Assign? || s.phase.Sync?) ==> NoWorkers(s) && NoSubs(s))
            && (s.phase == Done ==> NoWorkers(s))
            && (forall i, j :: 0 <= i < j < |s.workers| && s.workers[i].alive && s.workers[j].alive ==>
                                 s.workers[i].kind != s.workers[j].kind)
            && (forall i :: 0 <= i < |s.log| ==> EventOk(s.log, i))
  {
    hide Run, Possible, Active, EventOk;
    RunKeeps(START, actions);
    var s := Run(START, actions);
    assert forall i :: 0 <= i < |s.workers| ==> WorkerOk(s, s.workers[i]);
    assert forall i :: 0 <= i < |s.subs| ==> SubOk(s, s.subs[i]);
  }

  // ---------------------------------------------------------------------
  // A cancelled run group can be waited for
  // ---------------------------------------------------------------------

  ghost predicate OnlyExits(actions: seq<Action>) {
    forall i :: 0 <= i < |actions| ==> actions[i].Exit? && !actions[i].failed
  }

  /**
   In every reachable state in which the group loop waits for a run group that
   is cancelled, be it by a loop that ended, by a failed subscription or by
   Close, the loops can end one after another without any help, and then the
   wait is over.
   */
  lemma {:induction false} CancelledDrains(s: State) returns (actions: seq<Action>)
    requires Inv(s) && (s.phase.Stopping? || s.phase.Waiting?) && GroupDone(s)
    ensures OnlyExits(actions) && |actions| == s.count
    ensures Possible(s, actions) && Run(s, actions).phase == s.phase && Enabled(Run(s, actions), GroupWait)
    decreases Alive(s.workers)
  {
    hide Inv, Alive, NoWorkers;
    CountIs(s);
    if s.count == 0 {
      actions := [];
    } else {
      var i := SomeAlive(s.workers);
      var a := Exit(i, false);
      var t := Apply(s, a);
      Kept(s, a);
      AliveUpdate(s.workers, i, s.workers[i].(alive := false));
      var rest := CancelledDrains(t);
      actions := [a] + rest;
      assert actions[1..] == rest;
    }
  }

  lemma CountIs(s: State)
    requires Inv(s) && (s.phase.Stopping? || s.phase.Waiting?)
    ensures s.count == Alive(s.workers)
  {
  }

  lemma {:induction false} SomeAlive(ws: seq<Worker>) returns (i: nat)
    requires Alive(ws) > 0
    ensures i < |ws| && ws[i].alive
    decreases |ws|
  {
    if ws[|ws| - 1].alive {
      i := |ws| - 1;
    } else {
      i := SomeAlive(ws[..|ws| - 1]);
    }
  }

  /**
   In every run: while the group loop waits, the end of any one loop of the
   group, whatever ended it, has cancelled the group, and the others can then end
   one after another without a failure of their own until the wait is over.
   */
  lemma OneEndDrains(actions: seq<Action>) returns (more: seq<Action>)
    requires Possible(START, actions)
    requires var s := Run(START, actions); (s.phase.Stopping? || s.phase.Waiting?) && SomeEnded(s)
    ensures var s := Run(START, actions);
            GroupDone(s) && OnlyExits(more) && Possible(s, more) && Enabled(Run(s, more), GroupWait)
  {
    hide Possible, Run;
    RunKeeps(START, actions);
    more := CancelledDrains(Run(START, actions));
  }

  // ---------------------------------------------------------------------
  // The loop goes round
  // ---------------------------------------------------------------------

  ghost predicate Leads(s: State, actions: seq<Action>, t: State) {
    Possible(s, actions) && Run(s, actions) == t
  }

  lemma Stays(s: State)
    ensures Leads(s, [], s)
  {
  }

  /** One step more. */
  lemma {:induction false} Next(s: State, actions: seq<Action>, t: State, x: Action)
    requires Leads(s, actions, t) && Enabled(t, x)
    ensures Leads(s, actions + [x], Apply(t, x))
    decreases |actions|
  {
    hide Enabled, Apply;
    var more := actions + [x];
    if actions == [] {
      assert s == t && more[0] == x && more[1..] == [];
      assert Possible(Apply(t, x), more[1..]) && Run(Apply(t, x), more[1..]) == Apply(t, x);
    } else {
      Next(Apply(s, actions[0]), actions[1..], t, x);
      assert more[0] == actions[0] && more[1..] == actions[1..] + [x];
    }
  }

  lemma {:induction false} Together(s: State, a: seq<Action>, t: State, b: seq<Action>, u: State)
    requires Leads(s, a, t) && Leads(t, b, u)
    ensures Leads(s, a + b, u)
    decreases |a|
  {
    hide Enabled, Apply;
    if a == [] {
      assert a + b == b;
    } else {
      Together(Apply(s, a[0]), a[1..], t, b, u);
      assert (a + b)[0] == a[0] && (a + b)[1..] == a[1..] + b;
    }
  }

  /** How many subreaders are alive. */
  function Living(subs: seq<Sub>): nat {
    if subs == [] then 0 else Living(subs[..|subs| - 1]) + if subs[|subs| - 1].alive then 1 else 0
  }

  lemma {:induction false} LivingNone(subs: seq<Sub>)
    ensures Living(subs) == 0 <==> forall i :: 0 <= i < |subs| ==> !subs[i].alive
    decreases |subs|
  {
    if subs != [] {
      LivingNone(subs[..|subs| - 1]);
    }
  }

  lemma {:induction false} LivingEnds(subs: seq<Sub>, i: nat)
    requires i < |subs| && subs[i].alive
    ensures Living(subs[i := subs[i].(alive := false)]) == Living(subs) - 1
    decreases |subs|
  {
    var n, u := |subs| - 1, subs[i].(alive := false);
    if i == n {
      assert subs[i := u][..n] == subs[..n];
    } else {
      LivingEnds(subs[..n], i);
      assert subs[i := u][..n] == subs[..n][i := u];
    }
  }

  /** Once the context is cancelled all subreaders can end. */
  lemma {:induction false} SubsEnd(s: State) returns (actions: seq<Action>, t: State)
    requires ContextsOk(s) && s.context in s.cancelled
    ensures Leads(s, actions, t) && NoSubs(t) && |t.subs| == |s.subs| && t == s.(subs := t.subs)
    decreases Living(s.subs)
  {
    hide Leads, Living;
    LivingNone(s.subs);
    if i :| 0 <= i < |s.subs| && s.subs[i].alive {
      LivingEnds(s.subs, i);
      Stays(s);
      Next(s, [], s, SubExit(i));
      var u := Apply(s, SubExit(i));
      var more, v := SubsEnd(u);
      Together(s, [] + [SubExit(i)], u, more, v);
      actions, t := [] + [SubExit(i)] + more, v;
    } else {
      Stays(s);
      actions, t := [], s;
    }
  }

  /**
   From the end of a handshake of a reader that was not stopped the loop can come
   to the next join: the subreaders are ended, nothing is sent, and it joins
   under the member id it has.
   */
  lemma Rejoins(s: State) returns (actions: seq<Action>, t: State)
    requires ContextsOk(s) && s.phase.Ending? && !s.stopped
    ensures Leads(s, actions, t) && t.phase == Join && NoSubs(t) && |t.subs| == |s.subs|
            && t.cancelled == s.cancelled + {s.context}
    ensures t.log == s.log && t.membership == s.membership && t.workers == s.workers && t.context == s.context
    ensures t.closed == s.closed && !t.stopped && t.context in t.cancelled && t.first == s.first
  {
    hide Leads, Living;
    Stays(s);
    Next(s, [], s, EndHandshake);
    var a, u := [] + [EndHandshake], Apply(s, EndHandshake);
    Next(s, a, u, Cancel);
    a, u := a + [Cancel], Apply(u, Cancel);
    assert ContextsOk(u) by {
      ContextsKept(s, EndHandshake);
      ContextsKept(Apply(s, EndHandshake), Cancel);
    }
    var b, w := SubsEnd(u);
    Together(s, a, u, b, w);
    a := a + b;
    Next(s, a, w, JoinWait);
    var v := Apply(w, JoinWait);
    a := a + [JoinWait];
    Next(s, a, v, Refreshed(true));
    a, v := a + [Refreshed(true)], Apply(v, Refreshed(true));
    Next(s, a, v, Connected(true));
    actions, t := a + [Connected(true)], Apply(v, Connected(true));
    assert NoSubs(t) by {
      assert NoSubs(w) && t.subs == w.subs;
    }
  }

  /** A loop that is at work. */
  function At(kind: Kind): Worker {
    Worker(kind, true, None)
  }

  /**
   From a join the loop can come to wait with the membership it was granted: one
   request for it, the heartbeat and commit loops and, if wanted, the watcher, and
   a subreader for each of the partitions, in a context of their own.
   */
  lemma Subscribes(s: State, m: Membership, watch: bool, n: nat) returns (actions: seq<Action>, t: State)
    requires s.phase == Join && !s.closed
    ensures Leads(s, actions, t) && t.phase == Waiting && t.membership == m
    ensures t.log == s.log + [JoinRequest(s.membership.member), Granted(m)]
    ensures t.workers == s.workers + [At(Heartbeat), At(Commit)] + (if watch then [At(Watch)] else [])
    ensures t.first == |s.workers| && t.count == (if watch then 3 else 2) && !t.groupCancelled
    ensures t.subs == s.subs + seq(n, _ => Sub(t.context, true, m)) && (n > 0 ==> t.context == s.context + 1)
    ensures n > 0 ==> s.context in t.cancelled && (t.context in t.cancelled ==> t.context in s.cancelled)
  {
    hide Leads, NoSubs, NoWorkers;
    var a, u := Syncs(s, m);
    var b, v := Starts(u, watch);
    Together(s, a, u, b, v);
    a := a + b;
    Next(s, a, v, Subscribed(true, n));
    actions, t := a + [Subscribed(true, n)], Apply(v, Subscribed(true, n));
    assert n == 0 ==> seq(n, _ => Sub(t.context, true, m)) == [];
    assert n == 0 ==> t.subs == s.subs;
  }

  lemma Syncs(s: State, m: Membership) returns (actions: seq<Action>, t: State)
    requires s.phase == Join
    ensures Leads(s, actions, t)
    ensures t == s.(phase := GoHeartbeat, membership := m, count := 0, groupCancelled := false, first := |s.workers|,
                    log := s.log + [JoinRequest(s.membership.member), Granted(m)])
  {
    hide Leads, NoSubs, NoWorkers, Start, Spawn, SubscribeStep, EndStep, ReadStep;
    Stays(s);
    Next(s, [], s, SendJoin(true));
    var a, u := [] + [SendJoin(true)], Apply(s, SendJoin(true));
    Next(s, a, u, JoinAnswered(Joined(m)));
    a, u := a + [JoinAnswered(Joined(m))], Apply(u, JoinAnswered(Joined(m)));
    Next(s, a, u, Assigned(true));
    a, u := a + [Assigned(true)], Apply(u, Assigned(true));
    Next(s, a, u, SyncAnswered(true, false, false));
    actions, t := a + [SyncAnswered(true, false, false)], Apply(u, SyncAnswered(true, false, false));
  }

  lemma Starts(s: State, watch: bool) returns (actions: seq<Action>, t: State)
    requires s.phase == GoHeartbeat
    ensures Leads(s, actions, t)
    ensures t == s.(phase := Subscribe, count := s.count + (if watch then 3 else 2),
                    workers := s.workers + [At(Heartbeat), At(Commit)] + (if watch then [At(Watch)] else []))
  {
    hide Leads;
    Stays(s);
    Next(s, [], s, Go(watch));
    var a, u := [] + [Go(watch)], Apply(s, Go(watch));
    Next(s, a, u, Go(watch));
    a, u := a + [Go(watch)], Apply(u, Go(watch));
    assert u.workers == s.workers + [At(Heartbeat), At(Commit)];
    Next(s, a, u, Go(watch));
    actions, t := a + [Go(watch)], Apply(u, Go(watch));
    assert u.workers + [] == u.workers;
  }

  /**
   In every run of a reader that is not being closed: when the group loop waits
   for a cancelled group it can come to wait for the next one, under whatever
   membership it is granted then.  It sends nothing but the join request for the
   member it is, the loops and subreaders alive are those it started since, and
   the subreaders run in a context that is not cancelled.
   */
  lemma Recovers(actions: seq<Action>, m: Membership, watch: bool, n: nat) returns (more: seq<Action>, t: State)
    requires Possible(START, actions)
    requires var s := Run(START, actions);
             (s.phase.Stopping? || s.phase.Waiting?) && GroupDone(s) && !s.closed && !s.stopped
    ensures var s := Run(START, actions);
            && Leads(s, more, t) && t.phase == Waiting && t.membership == m && !t.groupCancelled
            && t.log == s.log + [JoinRequest(s.membership.member), Granted(m)]
            && |s.workers| <= |t.workers| && |s.subs| <= |t.subs|
            && t.workers[|s.workers|..] == [At(Heartbeat), At(Commit)] + (if watch then [At(Watch)] else [])
            && t.subs[|s.subs|..] == seq(n, _ => Sub(t.context, true, m))
            && (forall i :: 0 <= i < |s.workers| ==> !t.workers[i].alive)
            && (forall i :: 0 <= i < |s.subs| ==> !t.subs[i].alive)
            && (n > 0 ==> t.context !in t.cancelled)
  {
    hide Leads, Run, Possible, OnlyExits;
    RunKeeps(START, actions);
    var s := Run(START, actions);
    var a, u := Drained(s);
    var b, v := Rejoins(u);
    Together(s, a, u, b, v);
    var c, w := Subscribes(v, m, watch, n);
    Together(s, a + b, v, c, w);
    more, t := a + b + c, w;
    assert v.context + 1 !in v.cancelled;
  }

  lemma Drained(s: State) returns (actions: seq<Action>, t: State)
    requires Inv(s) && (s.phase.Stopping? || s.phase.Waiting?) && GroupDone(s)
    ensures Leads(s, actions, t) && NoWorkers(t) && |t.workers| == |s.workers| && t.phase == Ending(true) && Inv(t)
    ensures t == s.(workers := t.workers, count := t.count, groupCancelled := t.groupCancelled, phase := t.phase)
  {
    hide Leads, Alive, OnlyExits;
    actions := CancelledDrains(s);
    t := Run(s, actions);
    RunKeeps(s, actions);
    LeadsRun(s, actions);
    ExitsOnly(s, actions);
    Kept(t, GroupWait);
    AliveNone(t.workers);
    Next(s, actions, t, GroupWait);
    actions, t := actions + [GroupWait], Apply(t, GroupWait);
  }

  // ---------------------------------------------------------------------
  // Handshakes that fail
  // ---------------------------------------------------------------------

  predicate Fails(a: Action) {
    match a
    case Refreshed(ok) => !ok
    case Connected(ok) => !ok
    case SendJoin(ok) => !ok
    case JoinAnswered(reply) => !reply.Joined?
    case Assigned(ok) => !ok
    case SyncAnswered(ok, _, _) => !ok
    case _ => false
  }

  /** The member id the reader is left with: none if the coordinator does not know it. */
  function MemberAfter(s: State, a: Action): string {
    if a == JoinAnswered(UnknownMember) || (a.SyncAnswered? && a.unknownMember) then "" else s.membership.member
  }

  /** The leave request a failure sends at once. */
  function LeftWith(s: State, a: Action): seq<Event> {
    if a.Assigned? || (a.SyncAnswered? && (a.unknownMember || a.leave)) then [LeaveRequest(MemberAfter(s, a))] else []
  }

  /**
   Whatever fails in a handshake, a reader that is not stopped can join again,
   under the member id it has unless the coordinator disowned it, and sends
   nothing before but the leave request of that failure.
   */
  lemma FailureRejoins(s: State, a: Action) returns (more: seq<Action>, t: State)
    requires ContextsOk(s) && Enabled(s, a) && Fails(a) && !s.stopped
    ensures Leads(Apply(s, a), more, t) && t.phase == Joining && NoSubs(t)
    ensures t.membership.member == MemberAfter(s, a)
    ensures t.log == s.log + LeftWith(s, a) + [JoinRequest(MemberAfter(s, a))]
  {
    var u := Apply(s, a);
    ContextsKept(s, a);
    FailureEnds(s, a);
    hide Leads, NoSubs, Apply, LeftWith, MemberAfter, Fails;
    var b, v := Rejoins(u);
    JoinSends(u, b, v);
    more, t := b + [SendJoin(true)], v.(phase := Joining, log := v.log + [JoinRequest(v.membership.member)]);
    NoSubsStay(v, t);
  }

  /** A reader that is stopped ends instead, and leaves the group if the handshake had a connection. */
  lemma FailureStops(s: State, a: Action)
    requires Enabled(s, a) && Fails(a) && s.stopped
    ensures var u := Apply(s, a); u.phase.Ending? && Apply(u, EndHandshake).phase == Done
    ensures var leaves := if a.Refreshed? || a.Connected? then [] else [LeaveRequest(MemberAfter(s, a))];
            Apply(Apply(s, a), EndHandshake).log == s.log + LeftWith(s, a) + leaves
  {
    hide LeftWith, MemberAfter, Fails;
    FailureEnds(s, a);
    assert s.log + LeftWith(s, a) + [] == s.log + LeftWith(s, a);
  }

  lemma FailureEnds(s: State, a: Action)
    requires Enabled(s, a) && Fails(a)
    ensures var u := Apply(s, a);
            && u.phase == Ending(!a.Refreshed? && !a.Connected?) && u.stopped == s.stopped
            && u.membership.member == MemberAfter(s, a) && u.log == s.log + LeftWith(s, a)
  {
    hide NoSubs, NoWorkers, Start, SubscribeStep, Spawn, ReadStep, EndStep;
    assert s.log + [] == s.log;
  }

  lemma JoinSends(s: State, actions: seq<Action>, t: State)
    requires Leads(s, actions, t) && t.phase == Join
    ensures Leads(s, actions + [SendJoin(true)],
                  t.(phase := Joining, log := t.log + [JoinRequest(t.membership.member)]))
  {
    hide Leads, NoSubs;
    Next(s, actions, t, SendJoin(true));
  }

  lemma NoSubsStay(s: State, t: State)
    requires NoSubs(s) && t.subs == s.subs
    ensures NoSubs(t)
  {
  }

  // ---------------------------------------------------------------------
  // What the loops send
  // ---------------------------------------------------------------------

  /**
   A loop that is alive can read the membership and send its request under it;
   only the heartbeat loop reads nothing while the reader is no member.
   */
  lemma LoopSends(s: State, i: nat)
    requires i < |s.workers| && s.workers[i].alive && !s.workers[i].kind.Watch?
    ensures Enabled(s, ReadMembership(i))
    ensures var t := Apply(s, ReadMembership(i));
            if s.workers[i].kind.Heartbeat? && s.membership.generation == 0 && s.membership.member == "" then t == s
            else Enabled(t, SendRequest(i))
                 && Apply(t, SendRequest(i)) == s.(workers := s.workers[i := s.workers[i].(read := None)],
                                                   log := s.log + [Request(s.workers[i].kind, s.membership)])
  {
    hide NoSubs, NoWorkers;
    var t := Apply(s, ReadMembership(i));
    assert s.workers[i := s.workers[i].(read := Some(s.membership))][i := s.workers[i].(read := None)]
        == s.workers[i := s.workers[i].(read := None)];
  }

  /** After Close the loop can end while it waits, and it leaves the group. */
  lemma CloseEnds(s: State) returns (actions: seq<Action>, t: State)
    requires Inv(s) && (s.phase.Stopping? || s.phase.Waiting?)
    ensures Leads(s, actions, t) && t.phase == Done && t.closed && t.stopped && t.context in t.cancelled
    ensures t.log == s.log + [LeaveRequest(s.membership.member)]
  {
    hide Leads, Inv, NoWorkers;
    Stays(s);
    Kept(s, CloseFlag);
    Next(s, [], s, CloseFlag);
    var a, u := [] + [CloseFlag], Apply(s, CloseFlag);
    Kept(u, CloseCancel);
    Next(s, a, u, CloseCancel);
    a, u := a + [CloseCancel], Apply(u, CloseCancel);
    Kept(u, CloseStop);
    Next(s, a, u, CloseStop);
    a, u := a + [CloseStop], Apply(u, CloseStop);
    var b, v := Drained(u);
    Together(s, a, u, b, v);
    a := a + b;
    Next(s, a, v, EndHandshake);
    actions, t := a + [EndHandshake], Apply(v, EndHandshake);
  }

  lemma LeadsRun(s: State, actions: seq<Action>)
    requires Possible(s, actions)
    ensures Leads(s, actions, Run(s, actions))
  {
  }

  lemma {:induction false} ExitsOnly(s: State, actions: seq<Action>)
    requires Possible(s, actions) && OnlyExits(actions)
    ensures var t := Run(s, actions);
            |t.workers| == |s.workers| && t
                == s.(workers := t.workers, count := t.count, groupCancelled := t.groupCancelled)
    decreases |actions|
  {
    if actions != [] {
      assert actions[0].Exit?;
      ExitsOnly(Apply(s, actions[0]), actions[1..]);
    }
  }
}
