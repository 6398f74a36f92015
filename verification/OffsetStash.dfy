/**
 Committing offsets (reader.go, commit.go): the stash that keeps the highest
 offset per partition, the loop that commits it now and then, and the loop that
 commits every request at once.
 */
module OffsetStash {
  import opened Collections
  import opened Wire

  type Str = seq<byte>

  datatype Commit = Commit(topic: Str, partition: int, offset: int)

  /** topic -> partition -> offset. */
  type Stash = map<Str, map<int, int>>

  function Lookup(s: Stash, topic: Str, partition: int): Option<int> {
    if topic in s && partition in s[topic] then Some(s[topic][partition]) else None
  }

  // ---------------------------------------------------------------------
  // merge
  // ---------------------------------------------------------------------

  /** One pass of the loop of merge. */
  function Put(s: Stash, c: Commit): Stash {
    var offsets := if c.topic in s then s[c.topic] else map[];
    s[c.topic := if c.partition !in offsets || c.offset > offsets[c.partition] then offsets[c.partition := c.offset]
      else offsets]
  }

  function Merged(s: Stash, commits: seq<Commit>): Stash {
    if commits == [] then s else Put(Merged(s, commits[..|commits| - 1]), commits[|commits| - 1])
  }

  function Max(a: Option<int>, b: int): int {
    if a.None? || b > a.value then b else a.value
  }

  lemma PutLookup(s: Stash, c: Commit, topic: Str, partition: int)
    ensures Lookup(Put(s, c), topic, partition)
         == if c.topic == topic && c.partition == partition then Some(Max(Lookup(s, topic, partition), c.offset))
            else Lookup(s, topic, partition)
  {
  }

  /** The highest offset of `commits` for one partition, on top of `start`. */
  ghost predicate IsHighest(start: Option<int>, commits: seq<Commit>, topic: Str, partition: int, r: Option<int>) {
    && (r.None? <==> start.None? && forall c :: c in commits ==> c.topic != topic || c.partition != partition)
    && (r.Some? ==>
          && (r == start || Commit(topic, partition, r.value) in commits)
          && (start.Some? ==> start.value <= r.value)
          && forall c :: c in commits && c.topic == topic && c.partition == partition ==> c.offset <= r.value)
  }

  /** merge is the pointwise maximum. */
  lemma {:induction false} MergedIsHighest(s: Stash, commits: seq<Commit>, topic: Str, partition: int)
    ensures IsHighest(Lookup(s, topic, partition), commits, topic, partition,
                      Lookup(Merged(s, commits), topic, partition))
  {
    hide Put, Lookup;
    if commits != [] {
      var init, last := commits[..|commits| - 1], commits[|commits| - 1];
      MergedIsHighest(s, init, topic, partition);
      PutLookup(Merged(s, init), last, topic, partition);
      assert commits == init + [last];
      assert forall c :: c in commits <==> c in init || c == last;
    }
  }

  lemma {:induction false} MergedTopics(s: Stash, commits: seq<Commit>, topic: Str)
    ensures topic in Merged(s, commits) <==> topic in s || exists c :: c in commits && c.topic == topic
  {
    if commits != [] {
      var init, last := commits[..|commits| - 1], commits[|commits| - 1];
      MergedTopics(s, init, topic);
      assert forall c :: c in commits <==> c in init || c == last;
    }
  }

  lemma HighestUnique(start: Option<int>, a: seq<Commit>, b: seq<Commit>, topic: Str, partition: int, x: Option<int>,
                      y: Option<int>)
    requires forall c :: c in a <==> c in b
    requires IsHighest(start, a, topic, partition, x) && IsHighest(start, b, topic, partition, y)
    ensures x == y
  {
  }

  /** The order of the commits, and repeated ones, make no difference. */
  lemma MergeOrderIndependent(s: Stash, a: seq<Commit>, b: seq<Commit>)
    requires forall c :: c in a <==> c in b
    ensures Merged(s, a) == Merged(s, b)
  {
    hide Merged, Lookup, IsHighest;
    var x, y := Merged(s, a), Merged(s, b);
    forall topic
      ensures topic in x <==> topic in y
    {
      MergedTopics(s, a, topic);
      MergedTopics(s, b, topic);
    }
    forall topic, partition
      ensures Lookup(x, topic, partition) == Lookup(y, topic, partition)
    {
      MergedIsHighest(s, a, topic, partition);
      MergedIsHighest(s, b, topic, partition);
      HighestUnique(Lookup(s, topic, partition), a, b, topic, partition, Lookup(x, topic, partition),
                    Lookup(y, topic, partition));
    }
    SameLookups(x, y);
  }

  lemma SameLookups(x: Stash, y: Stash)
    requires forall topic :: topic in x <==> topic in y
    requires forall topic, partition :: Lookup(x, topic, partition) == Lookup(y, topic, partition)
    ensures x == y
  {
    forall topic | topic in x
      ensures x[topic] == y[topic]
    {
      forall p
        ensures p in x[topic] <==> p in y[topic]
        ensures p in x[topic] ==> x[topic][p] == y[topic][p]
      {
        assert Lookup(x, topic, p) == Lookup(y, topic, p);
      }
    }
  }

  // ---------------------------------------------------------------------
  // makeCommits
  // ---------------------------------------------------------------------

  datatype Message = Message(topic: Str, partition: int, offset: int)

  /** makeCommit: the offset to resume from, one past the message. */
  function MakeCommit(m: Message): Commit {
    Commit(m.topic, m.partition, m.offset + 1)
  }

  function CommitsOf(msgs: seq<Message>): (r: seq<Commit>)
    ensures |r| == |msgs|
  {
    seq(|msgs|, i requires 0 <= i < |msgs| => MakeCommit(msgs[i]))
  }

  method MakeCommits(msgs: seq<Message>) returns (commits: seq<Commit>)
    ensures |commits| == |msgs| && commits == CommitsOf(msgs)
    ensures forall i :: 0 <= i < |msgs| ==>
                          && commits[i].topic == msgs[i].topic && commits[i].partition == msgs[i].partition
                          && commits[i].offset == msgs[i].offset + 1
  {
    commits := [];
    for i := 0 to |msgs|
      invariant |commits| == i && forall j :: 0 <= j < i ==> commits[j] == MakeCommit(msgs[j])
    {
      commits := commits + [MakeCommit(msgs[i])];
    }
  }

  // ---------------------------------------------------------------------
  // The loops
  // ---------------------------------------------------------------------

  const COMMIT_RETRIES := 3

  /** One attempt at a commit request: whether the reader was stopped while it slept before, and the answer. */
  datatype Attempt = Attempt(stopped: bool, ok: bool)

  /** Some attempt is answered well before the attempts are used up or the reader is stopped. */
  predicate Granted(attempts: seq<Attempt>, retries: nat) {
    exists k :: 0 <= k < retries && k < |attempts| && attempts[k].ok && forall j :: 0 < j <= k ==> !attempts[j].stopped
  }

  /** The same, attempt by attempt: the first one comes without a pause, each other behind one. */
  predicate Tried(attempts: seq<Attempt>, retries: nat) {
    && retries > 0 && attempts != []
    && (attempts[0].ok || (|attempts| > 1 && !attempts[1].stopped && Tried(attempts[1..], retries - 1)))
  }

  lemma {:induction false} GrantedIff(attempts: seq<Attempt>, retries: nat)
    ensures Granted(attempts, retries) <==> Tried(attempts, retries)
    decreases retries
  {
    if retries > 0 && |attempts| > 0 {
      var rest := attempts[1..];
      GrantedIff(rest, retries - 1);
      if k :| 0 <= k < retries && k < |attempts| && attempts[k].ok && forall j :: 0 < j <= k ==> !attempts[j].stopped {
        if k > 0 {
          assert rest[k - 1].ok && forall j :: 0 < j <= k - 1 ==> rest[j] == attempts[j + 1];
        }
      }
      if Tried(attempts, retries) && !attempts[0].ok {
        var k :| 0 <= k < retries - 1 && k < |rest| && rest[k].ok && forall j :: 0 < j <= k ==> !rest[j].stopped;
        assert attempts[k + 1].ok && forall j :: 1 < j <= k + 1 ==> attempts[j] == rest[j - 1];
      }
    }
  }

  /** The stash, the channel of requests, and every request the coordinator accepted. */
  datatype State = State(stash: Stash, queue: seq<seq<Commit>>, accepted: seq<Stash>)

  const START := State(map[], [], [])

  /** What the interval loop can see; `Stop` ends one loop and the next one carries on with the same stash. */
  datatype Event = Request(msgs: seq<Message>) | Take | Tick(attempts: seq<Attempt>) | Stop(attempts: seq<Attempt>)

  /** The commit of the interval loop: the stash is cleared only after success, and an empty one needs no request. */
  function Flushed(s: State, attempts: seq<Attempt>): State {
    if s.stash == map[] then s
    else if Granted(attempts, COMMIT_RETRIES) then State(map[], s.queue, s.accepted + [s.stash])
    else s
  }

  function Taken(s: State): State {
    if s.queue == [] then s else s.(stash := Merged(s.stash, s.queue[0]), queue := s.queue[1..])
  }

  function Step(s: State, e: Event): State {
    match e
    case Request(msgs) => s.(queue := s.queue + [CommitsOf(msgs)])
    case Take => Taken(s)
    case Tick(attempts) => Flushed(s, attempts)
    case Stop(attempts) => Flushed(s, attempts)
  }

  function After(s: State, events: seq<Event>): State
    decreases |events|
  {
    if events == [] then s else Step(After(s, events[..|events| - 1]), events[|events| - 1])
  }

  class Reader {
    /** The stash survives rebalances; requests wait in the channel `commits`. */
    var stash: Stash
    var commits: seq<seq<Commit>>
    var accepted: seq<Stash>

    function View(): State
      reads this
    {
      State(stash, commits, accepted)
    }

    constructor ()
      ensures View() == START
    {
      stash, commits, accepted := map[], [], [];
    }

    /** CommitMessages with a commit interval other than zero. */
    method CommitMessages(msgs: seq<Message>)
      modifies this`commits
      ensures commits == old(commits) + [CommitsOf(msgs)]
    {
      var cs := MakeCommits(msgs);
      commits := commits + [cs];
    }

    /** merge of the request at the head of the channel. */
    method Receive()
      requires commits != []
      modifies this`commits, this`stash
      ensures View() == Taken(old(View()))
    {
      stash := MergeInto(stash, commits[0]);
      commits := commits[1..];
    }

    /** commitOffsets: an empty stash needs no request. */
    method CommitOffsets(s: Stash, answer: bool) returns (ok: bool)
      modifies this`accepted
      ensures ok <==> s == map[] || answer
      ensures accepted == if ok && s != map[] then old(accepted) + [s] else old(accepted)
    {
      if s == map[] {
        return true;
      }
      ok := answer;
      if ok {
        accepted := accepted + [s];
      }
    }

    /** commitOffsetsWithRetry: gives up when the attempts are used up or the reader is stopped meanwhile. */
    method CommitOffsetsWithRetry(s: Stash, retries: nat, attempts: seq<Attempt>) returns (ok: bool)
      requires retries > 0
      modifies this`accepted
      ensures ok <==> s == map[] || Granted(attempts, retries)
      ensures accepted == if ok && s != map[] then old(accepted) + [s] else old(accepted)
    {
      ok := false;
      for attempt := 0 to retries
        invariant !ok && accepted == old(accepted) && (attempt > 0 ==> s != map[])
        invariant forall k :: 0 <= k < attempt && k < |attempts| ==> !attempts[k].ok
        invariant forall k :: 0 < k < attempt && k < |attempts| ==> !attempts[k].stopped
      {
        if attempt != 0 && attempt < |attempts| && attempts[attempt].stopped {
          return;
        }
        ok := CommitOffsets(s, attempt < |attempts| && attempts[attempt].ok);
        if ok {
          return;
        }
      }
    }

    method CommitStash(attempts: seq<Attempt>)
      modifies this`stash, this`accepted
      ensures View() == Flushed(old(View()), attempts)
    {
      var ok := CommitOffsetsWithRetry(stash, COMMIT_RETRIES, attempts);
      if ok {
        stash := map[];
      }
    }

    /** commitLoopInterval and the restarts of it: any run of requests, ticks and rebalances. */
    method Interval(events: seq<Event>)
      modifies this
      ensures View() == After(old(View()), events)
    {
      for i := 0 to |events|
        invariant View() == After(old(View()), events[..i])
      {
        assert events[..i + 1][..i] == events[..i];
        match events[i] {
          case Request(msgs) =>
            CommitMessages(msgs);
          case Take =>
            if commits != [] {
              Receive();
            }
          case Tick(attempts) =>
            CommitStash(attempts);
          case Stop(attempts) =>
            CommitStash(attempts);
        }
      }
      assert events[..|events|] == events;
    }

    /**
     One round of commitLoopImmediate: nil is replied exactly when there is
     nothing to commit or a request is accepted in time, and that request
     resumes every partition right behind the last of its messages.
     */
    method Immediate(msgs: seq<Message>, attempts: seq<Attempt>) returns (ok: bool)
      modifies this`accepted
      ensures ok <==> msgs == [] || Granted(attempts, COMMIT_RETRIES)
      ensures !ok || msgs == [] ==> accepted == old(accepted)
      ensures ok && msgs != [] ==>
                && |accepted| == |old(accepted)| + 1 && accepted[..|old(accepted)|] == old(accepted)
                && forall topic, partition ::
                     IsBehind(msgs, topic, partition, Lookup(accepted[|old(accepted)|], topic, partition))
    {
      hide Merged, IsBehind, Lookup, Granted;
      var cs := MakeCommits(msgs);
      var s: Stash := MergeInto(map[], cs);
      ok := CommitOffsetsWithRetry(s, COMMIT_RETRIES, attempts);
      EmptyMerge(cs);
      forall topic, partition
        ensures IsBehind(msgs, topic, partition, Lookup(s, topic, partition))
      {
        MergedIsBehind(msgs, topic, partition);
      }
    }
  }

  /** offsetStash.merge. */
  method MergeInto(start: Stash, cs: seq<Commit>) returns (s: Stash)
    ensures s == Merged(start, cs)
  {
    s := start;
    for i := 0 to |cs|
      invariant s == Merged(start, cs[..i])
    {
      assert cs[..i + 1][..i] == cs[..i];
      s := Put(s, cs[i]);
    }
    assert cs[..|cs|] == cs;
  }

  lemma EmptyMerge(cs: seq<Commit>)
    ensures Merged(map[], cs) == map[] <==> cs == []
  {
    if cs != [] {
      MergedTopics(map[], cs, cs[0].topic);
      assert cs[0] in cs;
    }
  }

  /** A partition is resumed right behind the last of its messages. */
  ghost predicate IsBehind(msgs: seq<Message>, topic: Str, partition: int, r: Option<int>) {
    && (r.None? <==> forall m :: m in msgs ==> m.topic != topic || m.partition != partition)
    && (r.Some? ==>
          && Message(topic, partition, r.value - 1) in msgs
          && forall m :: m in msgs && m.topic == topic && m.partition == partition ==> m.offset < r.value)
  }

  lemma MergedIsBehind(msgs: seq<Message>, topic: Str, partition: int)
    ensures IsBehind(msgs, topic, partition, Lookup(Merged(map[], CommitsOf(msgs)), topic, partition))
  {
    hide Merged;
    MergedIsHighest(map[], CommitsOf(msgs), topic, partition);
    InCommits(msgs);
  }

  lemma InCommits(msgs: seq<Message>)
    ensures forall m :: m in msgs ==> Commit(m.topic, m.partition, m.offset + 1) in CommitsOf(msgs)
    ensures forall c :: c in CommitsOf(msgs) ==> Message(c.topic, c.partition, c.offset - 1) in msgs
  {
    forall m | m in msgs
      ensures Commit(m.topic, m.partition, m.offset + 1) in CommitsOf(msgs)
    {
      var i :| 0 <= i < |msgs| && msgs[i] == m;
      assert CommitsOf(msgs)[i] == Commit(m.topic, m.partition, m.offset + 1);
    }
  }

  // ---------------------------------------------------------------------
  // No commit is lost, and none is made up
  // ---------------------------------------------------------------------

  /** Every message CommitMessages was called with. */
  function Read(events: seq<Event>): set<Message>
    decreases |events|
  {
    if events == [] then {}
    else
      var last := events[|events| - 1];
      Read(events[..|events| - 1]) + if last.Request? then set m | m in last.msgs else {}
  }

  /** The stash resumes the partition of the message behind the message. */
  ghost predicate Past(s: Stash, m: Message) {
    Lookup(s, m.topic, m.partition).Some? && m.offset < Lookup(s, m.topic, m.partition).value
  }

  ghost predicate Stored(accepted: seq<Stash>, m: Message) {
    exists i :: 0 <= i < |accepted| && Past(accepted[i], m)
  }

  ghost predicate Waiting(queue: seq<seq<Commit>>, m: Message) {
    exists i :: 0 <= i < |queue| && Commit(m.topic, m.partition, m.offset + 1) in queue[i]
  }

  /** Every offset of the stash is that behind a message that was read. */
  ghost predicate Backed(s: Stash, read: set<Message>) {
    forall topic, partition :: Lookup(s, topic, partition).Some? ==>
                                 Message(topic, partition, Lookup(s, topic, partition).value - 1) in read
  }

  ghost predicate Lossless(s: State, read: set<Message>) {
    forall m :: m in read ==> Waiting(s.queue, m) || Past(s.stash, m) || Stored(s.accepted, m)
  }

  ghost predicate Honest(s: State, read: set<Message>) {
    && (forall i, c :: 0 <= i < |s.queue| && c in s.queue[i] ==> Message(c.topic, c.partition, c.offset - 1) in read)
    && Backed(s.stash, read)
    && (forall i :: 0 <= i < |s.accepted| ==> Backed(s.accepted[i], read))
  }

  lemma MergedPast(s: Stash, commits: seq<Commit>, m: Message)
    requires Commit(m.topic, m.partition, m.offset + 1) in commits || Past(s, m)
    ensures Past(Merged(s, commits), m)
  {
    hide Merged, Lookup;
    MergedIsHighest(s, commits, m.topic, m.partition);
  }

  lemma MergedBacked(s: Stash, commits: seq<Commit>, read: set<Message>)
    requires Backed(s, read) && forall c :: c in commits ==> Message(c.topic, c.partition, c.offset - 1) in read
    ensures Backed(Merged(s, commits), read)
  {
    hide Merged, Lookup;
    forall topic, partition | Lookup(Merged(s, commits), topic, partition).Some?
      ensures Message(topic, partition, Lookup(Merged(s, commits), topic, partition).value - 1) in read
    {
      MergedIsHighest(s, commits, topic, partition);
    }
  }

  lemma RequestKeeps(s: State, msgs: seq<Message>, read: set<Message>)
    requires Lossless(s, read) && Honest(s, read)
    ensures var t, all := Step(s, Request(msgs)), read + set m | m in msgs; Lossless(t, all) && Honest(t, all)
  {
    hide Past, Lookup;
    InCommits(msgs);
    var t := Step(s, Request(msgs));
    forall m | m in msgs || Waiting(s.queue, m)
      ensures Waiting(t.queue, m)
    {
      if m in msgs {
        assert t.queue[|s.queue|] == CommitsOf(msgs);
      } else {
        var i :| 0 <= i < |s.queue| && Commit(m.topic, m.partition, m.offset + 1) in s.queue[i];
        assert t.queue[i] == s.queue[i];
      }
    }
  }

  lemma TakeKeeps(s: State, read: set<Message>)
    requires Lossless(s, read) && Honest(s, read) && s.queue != []
    ensures Lossless(Taken(s), read) && Honest(Taken(s), read)
  {
    hide Past, Backed, Merged;
    var t := Taken(s);
    MergedBacked(s.stash, s.queue[0], read);
    forall m | m in read
      ensures Waiting(t.queue, m) || Past(t.stash, m) || Stored(t.accepted, m)
    {
      if Past(s.stash, m) || Commit(m.topic, m.partition, m.offset + 1) in s.queue[0] {
        MergedPast(s.stash, s.queue[0], m);
      } else if Waiting(s.queue, m) {
        var i :| 0 <= i < |s.queue| && Commit(m.topic, m.partition, m.offset + 1) in s.queue[i];
        assert t.queue[i - 1] == s.queue[i];
      }
    }
  }

  lemma FlushKeeps(s: State, attempts: seq<Attempt>, read: set<Message>)
    requires Lossless(s, read) && Honest(s, read)
    ensures Lossless(Flushed(s, attempts), read) && Honest(Flushed(s, attempts), read)
  {
    var t := Flushed(s, attempts);
    hide Past, Granted;
    assert Backed(map[], read);
    forall m | m in read
      ensures Waiting(t.queue, m) || Past(t.stash, m) || Stored(t.accepted, m)
    {
      if t != s && Past(s.stash, m) {
        assert t.accepted[|s.accepted|] == s.stash;
      } else if Stored(s.accepted, m) {
        var i :| 0 <= i < |s.accepted| && Past(s.accepted[i], m);
        assert t.accepted[i] == s.accepted[i];
      }
    }
  }

  /**
   Over any requests, ticks, failed commits and restarts of the loop: every
   message CommitMessages was called with waits in the channel, or the stash or an
   accepted request resumes its partition behind it; and no offset is ever
   committed that is not the one behind such a message.
   */
  lemma {:induction false} NothingLost(events: seq<Event>)
    ensures Lossless(After(START, events), Read(events)) && Honest(After(START, events), Read(events))
    decreases |events|
  {
    hide Lossless, Honest, Flushed;
    if events == [] {
      StartKeeps();
    } else {
      var init, e := events[..|events| - 1], events[|events| - 1];
      NothingLost(init);
      var s, read := After(START, init), Read(init);
      assert read + {} == read;
      match e {
        case Request(msgs) =>
          RequestKeeps(s, msgs, read);
        case Take =>
          if s.queue != [] {
            TakeKeeps(s, read);
          }
        case Tick(attempts) =>
          FlushKeeps(s, attempts, read);
        case Stop(attempts) =>
          FlushKeeps(s, attempts, read);
      }
    }
  }

  lemma StartKeeps()
    ensures Lossless(START, {}) && Honest(START, {})
  {
  }

  /** The loop takes what waits in the channel. */
  function Takes(n: nat): (r: seq<Event>)
    ensures |r| == n && forall i :: 0 <= i < n ==> r[i] == Take
  {
    seq(n, _ => Take)
  }

  lemma {:induction false} TakesAll(s: State, n: nat)
    requires n <= |s.queue|
    ensures After(s, Takes(n)).queue == s.queue[n..] && After(s, Takes(n)).accepted == s.accepted
  {
    if n > 0 {
      assert Takes(n)[..n - 1] == Takes(n - 1);
      TakesAll(s, n - 1);
      assert s.queue[n - 1..][1..] == s.queue[n..];
    }
  }

  lemma {:induction false} AfterAppend(s: State, a: seq<Event>, b: seq<Event>)
    ensures After(s, a + b) == After(After(s, a), b)
    decreases |b|
  {
    hide Step;
    if b == [] {
      assert a + b == a;
    } else {
      assert (a + b)[..|a + b| - 1] == a + b[..|b| - 1];
      AfterAppend(s, a, b[..|b| - 1]);
    }
  }

  lemma {:induction false} ReadAppend(a: seq<Event>, b: seq<Event>)
    requires forall i :: 0 <= i < |b| ==> !b[i].Request?
    ensures Read(a + b) == Read(a)
    decreases |b|
  {
    if b == [] {
      assert a + b == a;
    } else {
      assert (a + b)[..|a + b| - 1] == a + b[..|b| - 1];
      ReadAppend(a, b[..|b| - 1]);
    }
  }

  /**
   After any run, when the loop has taken what waits in the channel, one commit
   that is granted in time, by a tick or by the end of the loop, stores
   everything: each partition that was read from has an accepted request that
   resumes it behind every message of it, and exactly behind one of them.
   */
  lemma GrantedStoresAll(events: seq<Event>, attempts: seq<Attempt>, stop: bool)
    requires Granted(attempts, COMMIT_RETRIES)
    ensures var s, read := After(START, events), Read(events);
            var t := After(s, Takes(|s.queue|) + [if stop then Stop(attempts) else Tick(attempts)]);
            && t.queue == [] && t.stash == map[]
            && (forall m :: m in read ==> Stored(t.accepted, m))
            && (forall i :: 0 <= i < |t.accepted| ==> Backed(t.accepted[i], read))
  {
    hide After, Read, Granted, Stored, Backed;
    var s, read := After(START, events), Read(events);
    var last := if stop then Stop(attempts) else Tick(attempts);
    var more := Takes(|s.queue|) + [last];
    AfterAppend(s, Takes(|s.queue|), [last]);
    TakesAll(s, |s.queue|);
    AfterOne(After(s, Takes(|s.queue|)), last);
    AfterAppend(START, events, more);
    ReadAppend(events, more);
    NothingLost(events + more);
    var t := After(s, more);
    forall m | m in read
      ensures Stored(t.accepted, m)
    {
      assert !Past(map[], m) && !Waiting([], m);
    }
  }

  lemma AfterOne(s: State, e: Event)
    ensures After(s, [e]) == Step(s, e)
  {
    assert [e][..0] == [];
  }
}
