/** The transactional outbox: a publish event travels from its committed row through the queue
    (or straight) to the timeline, with every outside call free to fail. */
module Outbox {
  import opened Sequences
  import opened SortedSets
  import opened Timeline

  /** A pending outbox row; the queued event carries the same fields. */
  datatype Msg = Msg(id: nat, videoID: nat, createTime: int)

  /** The event stream and its history: `committed` videos, videos ever `applied` to the timeline,
      and videos `dropped` by the consumer with the number of attempts made. */
  datatype Pipeline = Pipeline(committed: set<nat>, outbox: seq<Msg>, queue: seq<Msg>, timeline: seq<ZMember>,
                               applied: set<nat>, dropped: map<nat, nat>)

  /** A publish may be refused with an error, reach the queue although its acknowledgement is lost, or be
      released by the broker: then it reached no queue, yet no error is returned, for the result is dropped. */
  datatype Publish = NoPublisher | Refused | LostAck | Accepted | Released

  /** The outcomes of one poller iteration: publish, fallback write, row deletion. */
  datatype Send = Send(publish: Publish, hasCache: bool, add: bool, trim: bool, delete: bool)

  /** The outcomes of one handler attempt: timeline insert, cut, follower fan-out. */
  datatype Attempt = Attempt(add: bool, trim: bool, follow: bool)

  const BATCH: nat := 100
  const RETRIES: nat := 3

  function Event(m: Msg): ZMember {
    ZMember(m.createTime, m.videoID)
  }

  function OtherRow(id: nat): Msg -> bool {
    (m: Msg) => m.id != id
  }

  // ---- Steps ------------------------------------------------------------------------------

  /** The video row and its outbox row commit together or not at all. */
  function Committed(p: Pipeline, m: Msg, commits: bool): Pipeline {
    if commits then p.(committed := p.committed + {m.videoID}, outbox := p.outbox + [m]) else p
  }

  /** What the poller takes for success. */
  predicate NoError(p: Publish) {
    p.Accepted? || p.Released?
  }

  predicate WritesDirectly(s: Send) {
    !NoError(s.publish) && s.hasCache && s.add
  }

  predicate DeletesRow(s: Send) {
    (NoError(s.publish) || (WritesDirectly(s) && s.trim)) && s.delete
  }

  /** One message of a poll: publish; on an error, write directly; on success delete the row. */
  function Sent(p: Pipeline, cap: nat, m: Msg, s: Send): Pipeline {
    p.(queue := if s.publish.LostAck? || s.publish.Accepted? then p.queue + [m] else p.queue,
       timeline := if WritesDirectly(s) then Written(p.timeline, cap, Write(Event(m), s.trim)) else p.timeline,
       applied := if WritesDirectly(s) then p.applied + {m.videoID} else p.applied,
       outbox := if DeletesRow(s) then Filter(p.outbox, OtherRow(m.id)) else p.outbox)
  }

  function SentAll(p: Pipeline, cap: nat, msgs: seq<Msg>, sends: seq<Send>): Pipeline
    requires |msgs| <= |sends|
  {
    if msgs == [] then p
    else
      var n := |msgs| - 1;
      Sent(SentAll(p, cap, msgs[..n], sends), cap, msgs[n], sends[n])
  }

  predicate Succeeds(a: Attempt) {
    a.add && a.trim && a.follow
  }

  /** How many attempts are made: up to the first success, at most all of them. */
  function Made(attempts: seq<Attempt>): (n: nat)
    ensures n <= |attempts|
  {
    if attempts == [] then 0 else if Succeeds(attempts[0]) then 1 else 1 + Made(attempts[1..])
  }

  function Tried(p: Pipeline, cap: nat, m: Msg, attempts: seq<Attempt>): Pipeline {
    if attempts == [] then p
    else
      var n := |attempts| - 1;
      var q := Tried(p, cap, m, attempts[..n]);
      if attempts[n].add
      then q.(timeline := Written(q.timeline, cap, Write(Event(m), attempts[n].trim)),
              applied := q.applied + {m.videoID})
      else q
  }

  /** One delivery: up to three attempts, then the message is settled whether or not one succeeded;
      a settlement that is lost leaves the message in the queue, to be delivered again. */
  function Handled(p: Pipeline, cap: nat, i: nat, attempts: seq<Attempt>, settled: bool): Pipeline
    requires i < |p.queue| && |attempts| == RETRIES
  {
    var m, made := p.queue[i], Made(attempts);
    var q := Tried(p, cap, m, attempts[..made]);
    q.(dropped := if made > 0 && Succeeds(attempts[made - 1]) then q.dropped else q.dropped[m.videoID := made],
       queue := if settled then p.queue[..i] + p.queue[i + 1..] else p.queue)
  }

  // ---- The running system -------------------------------------------------------------------

  /** retryWithBackOff over given outcomes: stops at the first success; the waits double from one second. */
  method RetryWithBackOff(retries: nat, outcomes: seq<bool>) returns (ok: bool, calls: nat, waited: nat)
    requires retries <= |outcomes|
    ensures calls <= retries
    ensures forall j :: 0 <= j < calls ==> outcomes[j] == (ok && j == calls - 1)
    ensures ok ==> retries == 0 || calls > 0
    ensures !ok ==> calls == retries > 0
    ensures waited == if calls == 0 then 0 else Power2(calls - 1) - 1
  {
    ok, calls, waited := true, 0, 0;
    for i := 0 to retries
      invariant calls == i
      invariant i > 0 ==> !ok
      invariant i == 0 ==> ok
      invariant forall j :: 0 <= j < i ==> !outcomes[j]
      invariant waited == if i == 0 then 0 else Power2(i - 1) - 1
    {
      if i > 0 {
        waited := waited + Power2(i - 1);
      }
      calls := calls + 1;
      ok := outcomes[i];
      if ok {
        return;
      }
    }
  }

  function Power2(n: nat): (p: nat)
    ensures p >= 1
  {
    if n == 0 then 1 else 2 * Power2(n - 1)
  }

  class System {
    const cap: nat
    const cache: SortedSet
    var outbox: seq<Msg>
    var queue: seq<Msg>
    ghost var committed: set<nat>
    ghost var applied: set<nat>
    ghost var dropped: map<nat, nat>

    ghost function State(): Pipeline
      reads this, cache
    {
      Pipeline(committed, outbox, queue, cache.entries, applied, dropped)
    }

    constructor (cap: nat, cache: SortedSet)
      requires cache.entries == []
      ensures this.cap == cap && this.cache == cache
      ensures State() == Pipeline({}, [], [], [], {}, map[])
    {
      this.cap, this.cache := cap, cache;
      outbox, queue := [], [];
      committed, applied, dropped := {}, {}, map[];
    }

    method CreateWithOutbox(m: Msg, videoOK: bool, outboxOK: bool, tagsOK: bool) returns (ok: bool)
      modifies this
      ensures ok == (videoOK && outboxOK && tagsOK)
      ensures State() == Committed(old(State()), m, ok)
    {
      if !videoOK || !outboxOK || !tagsOK {
        return false;
      }
      outbox := outbox + [m];
      committed := committed + {m.videoID};
      return true;
    }

    /** One message of the batch, with the poller's `ok` flag. */
    method SendOne(m: Msg, s: Send)
      modifies this, cache
      ensures State() == Sent(old(State()), cap, m, s)
      ensures !s.publish.Accepted? && !s.publish.Released? && s.hasCache && s.add ==>
        cache.entries == Written(old(cache.entries), cap, Write(ZMember(m.createTime, m.videoID), s.trim))
    {
      var ok := false;
      if !s.publish.NoPublisher? {
        if s.publish.LostAck? || s.publish.Accepted? {
          queue := queue + [m];
        }
        if s.publish.Accepted? || s.publish.Released? {
          ok := true;
        }
      }
      if !ok && s.hasCache {
        ok := WriteTimeline(cache, cap, Event(m), s.add, s.trim);
        applied := if s.add then applied + {m.videoID} else applied;
      }
      if ok && s.delete {
        outbox := Filter(outbox, OtherRow(m.id));
      }
    }

    /** One poll over the oldest pending rows, as they were read. */
    method Poll(sends: seq<Send>)
      requires BATCH <= |sends|
      modifies this, cache
      ensures State() == SentAll(old(State()), cap, Take(old(outbox), BATCH), sends)
    {
      var msgs := Take(outbox, BATCH);
      for i := 0 to |msgs|
        invariant State() == SentAll(old(State()), cap, msgs[..i], sends)
      {
        assert msgs[..i + 1][..i] == msgs[..i];
        SendOne(msgs[i], sends[i]);
      }
      assert msgs[..|msgs|] == msgs;
    }

    /** Receives the `i`th message and handles it. */
    method Handle(i: nat, attempts: seq<Attempt>, settled: bool)
      requires i < |queue| && |attempts| == RETRIES
      modifies this, cache
      ensures State() == Handled(old(State()), cap, i, attempts, settled)
      ensures attempts[0] == Attempt(true, true, true) ==>
        var m := old(queue)[i];
        cache.entries == Written(old(cache.entries), cap, Write(ZMember(m.createTime, m.videoID), true))
    {
      var m := queue[i];
      var ok := false;
      var n := 0;
      while n < RETRIES && !ok
        invariant n <= RETRIES
        invariant State() == Tried(old(State()), cap, m, attempts[..n])
        invariant queue == old(queue) && outbox == old(outbox) && dropped == old(dropped)
        invariant ok ==> n > 0 && Succeeds(attempts[n - 1])
        invariant forall j :: 0 <= j < n ==> Succeeds(attempts[j]) == (ok && j == n - 1)
      {
        var a := attempts[n];
        assert attempts[..n + 1][..n] == attempts[..n];
        var wrote := WriteTimeline(cache, cap, Event(m), a.add, a.trim);
        applied := if a.add then applied + {m.videoID} else applied;
        ok := wrote && a.follow;
        n := n + 1;
      }
      MadeIs(attempts, n, ok);
      OneAttempt(old(State()), cap, m, attempts);
      if !ok {
        dropped := dropped[m.videoID := n];
      }
      if settled {
        queue := queue[..i] + queue[i + 1..];
      }
    }
  }

  lemma OneAttempt(p: Pipeline, cap: nat, m: Msg, attempts: seq<Attempt>)
    requires attempts != []
    ensures attempts[0] == Attempt(true, true, true) ==>
      Tried(p, cap, m, attempts[..Made(attempts)]).timeline ==
        Written(p.timeline, cap, Write(ZMember(m.createTime, m.videoID), true))
  {
    assert attempts[..1][..0] == [];
  }

  lemma {:induction false} MadeIs(attempts: seq<Attempt>, n: nat, ok: bool)
    requires n <= |attempts| && (ok ==> n > 0) && (!ok ==> n == |attempts|)
    requires forall j :: 0 <= j < n ==> Succeeds(attempts[j]) == (ok && j == n - 1)
    ensures Made(attempts) == n
  {
    if attempts != [] && !Succeeds(attempts[0]) {
      MadeIs(attempts[1..], n - 1, ok);
    }
  }

  // ---- Conservation -------------------------------------------------------------------------

  ghost predicate Holds(ms: seq<Msg>, v: nat) {
    exists m :: m in ms && m.videoID == v
  }

  /** Where a committed video's event can be once it has left the outbox. */
  ghost predicate Elsewhere(p: Pipeline, v: nat) {
    Holds(p.queue, v) || v in p.applied || v in p.dropped
  }

  ghost predicate Accounted(p: Pipeline, v: nat) {
    Holds(p.outbox, v) || Elsewhere(p, v)
  }

  ghost predicate Lost(p: Pipeline, v: nat) {
    v in p.committed && !Accounted(p, v)
  }

  /** No event without a committed video, at most one row for a video, and only videos dropped after three attempts. */
  ghost predicate WellFormed(p: Pipeline) {
    && (forall m :: m in p.outbox || m in p.queue ==> m.videoID in p.committed)
    && p.applied <= p.committed && p.dropped.Keys <= p.committed
    && (forall v :: v in p.dropped ==> p.dropped[v] == 3)
    && (forall e :: e in p.timeline ==> e.member in p.applied)
    && Ranked(p.timeline)
    && DistinctRows(p.outbox)
  }

  ghost predicate DistinctRows(ms: seq<Msg>) {
    forall i, j :: 0 <= i < j < |ms| ==> ms[i].id != ms[j].id && ms[i].videoID != ms[j].videoID
  }

  lemma {:induction false} RowsStayDistinct(ms: seq<Msg>, id: nat)
    requires DistinctRows(ms)
    ensures DistinctRows(Filter(ms, OtherRow(id)))
  {
    if ms != [] {
      RowsStayDistinct(ms[1..], id);
      var rest := Filter(ms[1..], OtherRow(id));
      forall i | 0 <= i < |rest| ensures rest[i].id != ms[0].id && rest[i].videoID != ms[0].videoID {
        FilterIn(ms[1..], OtherRow(id), rest[i]);
        assert rest[i] in ms[1..];
      }
    }
  }

  lemma WrittenMembers(s: seq<ZMember>, cap: nat, e: ZMember, trim: bool)
    requires Ranked(s)
    ensures Ranked(Written(s, cap, Write(e, trim)))
    ensures forall x :: x in Written(s, cap, Write(e, trim)) ==> x == e || x in s
  {
    AddSpec(s, e);
    LastRanked(Add(s, e), cap);
  }

  /** Nothing is lost by a commit, and what was lost stays lost. */
  lemma CommitConserves(p: Pipeline, m: Msg, commits: bool)
    requires WellFormed(p) && m.videoID !in p.committed && forall n :: n in p.outbox ==> n.id != m.id
    ensures WellFormed(Committed(p, m, commits))
    ensures forall v :: Lost(Committed(p, m, commits), v) <==> Lost(p, v)
  {
    if commits {
      var q := Committed(p, m, commits);
      assert m in q.outbox;
      forall v ensures Lost(q, v) <==> Lost(p, v) {
        assert forall n :: n in q.outbox <==> n in p.outbox || n == m;
      }
    }
  }

  /** The one way to lose an event: the broker releases it, its row is deleted, and no earlier send got it anywhere. */
  ghost predicate Loses(p: Pipeline, m: Msg, s: Send) {
    s.publish.Released? && s.delete && !Elsewhere(p, m.videoID)
  }

  lemma SentRows(p: Pipeline, cap: nat, m: Msg, s: Send)
    requires DistinctRows(p.outbox) && m in p.outbox
    ensures DistinctRows(Sent(p, cap, m, s).outbox)
    ensures forall n :: n in Sent(p, cap, m, s).outbox <==> n in p.outbox && (n == m ==> !DeletesRow(s))
  {
    RowsStayDistinct(p.outbox, m.id);
    forall n ensures n in Filter(p.outbox, OtherRow(m.id)) <==> n in p.outbox && n != m {
      FilterIn(p.outbox, OtherRow(m.id), n);
    }
  }

  lemma SendWellFormed(p: Pipeline, cap: nat, m: Msg, s: Send)
    requires WellFormed(p) && m in p.outbox
    ensures WellFormed(Sent(p, cap, m, s))
  {
    SentRows(p, cap, m, s);
    WrittenMembers(p.timeline, cap, Event(m), s.trim);
  }

  /** Sending loses this event exactly in that case, and never another one. */
  lemma SendConserves(p: Pipeline, cap: nat, m: Msg, s: Send)
    requires WellFormed(p) && m in p.outbox
    ensures forall v :: Lost(Sent(p, cap, m, s), v) <==> Lost(p, v) || (v == m.videoID && Loses(p, m, s))
  {
    var q := Sent(p, cap, m, s);
    SentRows(p, cap, m, s);
    OnlyRow(p.outbox, m, q.outbox);
    assert Holds(p.outbox, m.videoID);
    if s.publish.LostAck? || s.publish.Accepted? { assert m in q.queue; }
    forall v | v != m.videoID ensures Lost(q, v) <==> Lost(p, v) {
      SameRows(p.outbox, q.outbox, m, v);
      SameRows(p.queue, q.queue, m, v);
    }
  }

  lemma OnlyRow(ms: seq<Msg>, m: Msg, ns: seq<Msg>)
    requires DistinctRows(ms) && m in ms && forall n :: n in ns ==> n in ms
    ensures Holds(ns, m.videoID) <==> m in ns
  {}

  lemma SameRows(ms: seq<Msg>, ns: seq<Msg>, m: Msg, v: nat)
    requires v != m.videoID && forall n :: n in ns || n == m <==> n in ms || n == m
    ensures Holds(ns, v) <==> Holds(ms, v)
  {}

  /** The videos whose events a poll loses. */
  ghost function PollLoses(p: Pipeline, cap: nat, msgs: seq<Msg>, sends: seq<Send>): set<nat>
    requires |msgs| <= |sends|
  {
    if msgs == [] then {}
    else
      var n := |msgs| - 1;
      PollLoses(p, cap, msgs[..n], sends)
      + if Loses(SentAll(p, cap, msgs[..n], sends), msgs[n], sends[n]) then {msgs[n].videoID} else {}
  }

  lemma {:induction false} PollWellFormed(p: Pipeline, cap: nat, msgs: seq<Msg>, sends: seq<Send>)
    requires WellFormed(p) && |msgs| <= |sends| && DistinctRows(msgs) && forall m :: m in msgs ==> m in p.outbox
    ensures WellFormed(SentAll(p, cap, msgs, sends))
    ensures forall n :: n in p.outbox && n !in msgs ==> n in SentAll(p, cap, msgs, sends).outbox
  {
    if msgs != [] {
      var n := |msgs| - 1;
      PollWellFormed(p, cap, msgs[..n], sends);
      assert msgs[n] in msgs && msgs[n] !in msgs[..n];
      SendWellFormed(SentAll(p, cap, msgs[..n], sends), cap, msgs[n], sends[n]);
      SentRows(SentAll(p, cap, msgs[..n], sends), cap, msgs[n], sends[n]);
      assert msgs == msgs[..n] + [msgs[n]];
    }
  }

  /** A poll loses exactly those, and what was lost before stays lost. */
  lemma {:induction false} PollConserves(p: Pipeline, cap: nat, msgs: seq<Msg>, sends: seq<Send>)
    requires WellFormed(p) && |msgs| <= |sends| && DistinctRows(msgs) && forall m :: m in msgs ==> m in p.outbox
    ensures forall v :: Lost(SentAll(p, cap, msgs, sends), v) <==> Lost(p, v) || v in PollLoses(p, cap, msgs, sends)
  {
    if msgs != [] {
      var n := |msgs| - 1;
      PollConserves(p, cap, msgs[..n], sends);
      PollWellFormed(p, cap, msgs[..n], sends);
      assert msgs[n] in msgs && msgs[n] !in msgs[..n];
      SendConserves(SentAll(p, cap, msgs[..n], sends), cap, msgs[n], sends[n]);
    }
  }

  lemma {:induction false} TriesConserve(p: Pipeline, cap: nat, m: Msg, attempts: seq<Attempt>)
    requires WellFormed(p) && m.videoID in p.committed
    ensures var q := Tried(p, cap, m, attempts);
      && WellFormed(q) && q == p.(timeline := q.timeline, applied := q.applied)
      && (q.applied == p.applied || q.applied == p.applied + {m.videoID})
      && ((exists i :: 0 <= i < |attempts| && attempts[i].add) ==> m.videoID in q.applied)
  {
    if attempts != [] {
      var n := |attempts| - 1;
      TriesConserve(p, cap, m, attempts[..n]);
      var q := Tried(p, cap, m, attempts[..n]);
      WrittenMembers(q.timeline, cap, Event(m), attempts[n].trim);
      if i :| 0 <= i < |attempts| && attempts[i].add {
        assert i < n ==> attempts[..n][i].add;
      }
    }
  }

  lemma {:induction false} MadeStops(attempts: seq<Attempt>)
    requires attempts != []
    ensures Made(attempts) > 0
    ensures !Succeeds(attempts[Made(attempts) - 1]) ==>
      Made(attempts) == |attempts| && forall j :: 0 <= j < |attempts| ==> !Succeeds(attempts[j])
  {
    if !Succeeds(attempts[0]) && |attempts| > 1 {
      MadeStops(attempts[1..]);
    }
  }

  /** Where a handled event ends up: applied, or dropped after exactly three failed attempts. */
  lemma HandledWhere(p: Pipeline, cap: nat, i: nat, attempts: seq<Attempt>, settled: bool)
    requires WellFormed(p) && i < |p.queue| && |attempts| == RETRIES
    ensures var m, q := p.queue[i], Handled(p, cap, i, attempts, settled);
      && WellFormed(q) && (m.videoID in q.applied || m.videoID in q.dropped)
      && q.committed == p.committed && q.outbox == p.outbox
      && (forall v :: v != m.videoID ==> (v in q.applied <==> v in p.applied) && (v in q.dropped <==> v in p.dropped))
  {
    var m, made := p.queue[i], Made(attempts);
    assert m in p.queue;
    TriesConserve(p, cap, m, attempts[..made]);
    MadeStops(attempts);
    if Succeeds(attempts[made - 1]) {
      assert attempts[..made][made - 1].add;
    }
  }

  lemma QueueKeeps(queue: seq<Msg>, i: nat, v: nat)
    requires i < |queue| && v != queue[i].videoID
    ensures Holds(queue[..i] + queue[i + 1..], v) <==> Holds(queue, v)
  {
    assert queue == queue[..i] + [queue[i]] + queue[i + 1..];
  }

  /** Handling loses nothing: the event is applied or dropped, and every other one is where it was. */
  lemma HandleConserves(p: Pipeline, cap: nat, i: nat, attempts: seq<Attempt>, settled: bool)
    requires WellFormed(p) && i < |p.queue| && |attempts| == RETRIES
    ensures WellFormed(Handled(p, cap, i, attempts, settled))
    ensures forall v :: Lost(Handled(p, cap, i, attempts, settled), v) <==> Lost(p, v)
  {
    var m, q := p.queue[i], Handled(p, cap, i, attempts, settled);
    HandledWhere(p, cap, i, attempts, settled);
    forall v ensures Lost(q, v) <==> Lost(p, v) {
      if v == m.videoID {
        assert m in p.queue;
      } else {
        QueueKeeps(p.queue, i, v);
      }
    }
  }

  // ---- Whole runs -----------------------------------------------------------------------------

  datatype Step =
    | Create(m: Msg, commits: bool)
    | PollOnce(sends: seq<Send>)
    | Receive(i: nat, attempts: seq<Attempt>, settled: bool)

  /** Row and video ids are handed out once. */
  predicate Enabled(p: Pipeline, step: Step) {
    match step
    case Create(m, _) => m.videoID !in p.committed && forall n :: n in p.outbox ==> n.id != m.id
    case PollOnce(sends) => BATCH <= |sends|
    case Receive(i, attempts, _) => i < |p.queue| && |attempts| == RETRIES
  }

  function Next(p: Pipeline, cap: nat, step: Step): Pipeline
    requires Enabled(p, step)
  {
    match step
    case Create(m, commits) => Committed(p, m, commits)
    case PollOnce(sends) => SentAll(p, cap, Take(p.outbox, BATCH), sends)
    case Receive(i, attempts, settled) => Handled(p, cap, i, attempts, settled)
  }

  const START := Pipeline({}, [], [], [], {}, map[])

  /** A run, as the states it goes through. */
  predicate IsRun(states: seq<Pipeline>, cap: nat, steps: seq<Step>) {
    && |states| == |steps| + 1 && states[0] == START
    && forall i :: 0 <= i < |steps| ==> Enabled(states[i], steps[i]) && states[i + 1] == Next(states[i], cap, steps[i])
  }

  /** The videos whose events the first `i` steps lost: each in a released publish whose row was then deleted. */
  ghost function LostIn(states: seq<Pipeline>, cap: nat, steps: seq<Step>, i: nat): set<nat>
    requires i <= |steps| < |states|
  {
    if i == 0 then {}
    else
      var p := states[i - 1];
      LostIn(states, cap, steps, i - 1) +
      match steps[i - 1]
      case PollOnce(sends) => if BATCH <= |sends| then PollLoses(p, cap, Take(p.outbox, BATCH), sends) else {}
      case _ => {}
  }

  /** At every moment of every run, whatever fails: each committed video's event is pending, queued, applied or
      dropped after exactly three attempts, except precisely those that a released publish lost; and there is no
      event of a video that was not committed. */
  lemma {:induction false} EventsAreConserved(states: seq<Pipeline>, cap: nat, steps: seq<Step>, i: nat)
    requires IsRun(states, cap, steps) && i < |states|
    ensures WellFormed(states[i])
    ensures forall v :: v in states[i].committed ==> (Accounted(states[i], v) <==> v !in LostIn(states, cap, steps, i))
    ensures forall v :: Lost(states[i], v) <==> v in LostIn(states, cap, steps, i)
  {
    if i > 0 {
      EventsAreConserved(states, cap, steps, i - 1);
      match steps[i - 1]
      case Create(m, commits) => CommitConserves(states[i - 1], m, commits);
      case PollOnce(sends) =>
        PollWellFormed(states[i - 1], cap, Take(states[i - 1].outbox, BATCH), sends);
        PollConserves(states[i - 1], cap, Take(states[i - 1].outbox, BATCH), sends);
      case Receive(j, attempts, settled) => HandleConserves(states[i - 1], cap, j, attempts, settled);
    }
  }

  /** Once outbox and queue have drained, every committed video has reached the timeline, was dropped, or was lost. */
  lemma DrainedMeansApplied(states: seq<Pipeline>, cap: nat, steps: seq<Step>, i: nat)
    requires IsRun(states, cap, steps) && i < |states|
    requires states[i].outbox == [] && states[i].queue == []
    ensures states[i].committed == states[i].applied + states[i].dropped.Keys + LostIn(states, cap, steps, i)
    ensures LostIn(states, cap, steps, i) !! states[i].applied + states[i].dropped.Keys
  {
    EventsAreConserved(states, cap, steps, i);
    forall v
      ensures v in states[i].committed <==>
        v in states[i].applied + states[i].dropped.Keys + LostIn(states, cap, steps, i)
    {
      assert v in LostIn(states, cap, steps, i) <==> Lost(states[i], v);
    }
  }

  /** One video, one poll: the broker releases the message, and the event is gone with its row. */
  lemma ReleasedEventIsLost(cap: nat, m: Msg, rest: seq<Send>)
    requires |rest| == BATCH
    ensures var steps := [Create(m, true), PollOnce([Send(Released, true, true, true, true)] + rest)];
      var sent := Committed(START, m, true).(outbox := []);
      IsRun([START, Committed(START, m, true), sent], cap, steps) && Lost(sent, m.videoID)
  {
    var s := Send(Released, true, true, true, true);
    var p := Committed(START, m, true);
    assert p.outbox == [m];
    FilterNone(m);
    assert Take(p.outbox, BATCH) == [m] && [m][..0] == [];
    assert SentAll(p, cap, [m], [s] + rest) == Sent(p, cap, m, s);
  }

  lemma FilterNone(m: Msg)
    ensures Filter([m], OtherRow(m.id)) == []
  {
    assert [m][1..] == [];
  }
}
