/** What the pipeline leaves in the timeline, over whole runs, told from the messages that were committed; and how
    fast it gets there when nothing fails. */
module OutboxRuns {
  import opened Sequences
  import opened SortedSets
  import opened Timeline
  import opened Outbox

  // ---- The history of a run ---------------------------------------------------------------------

  /** The messages committed by the first `i` steps. */
  function Created(steps: seq<Step>, i: nat): set<Msg>
    requires i <= |steps|
  {
    if i == 0 then {}
    else Created(steps, i - 1) + match steps[i - 1] case Create(m, true) => {m} case _ => {}
  }

  /** A video has one message. */
  ghost predicate OneEach(made: set<Msg>) {
    forall m, n :: m in made && n in made && m.videoID == n.videoID ==> m == n
  }

  /** Whatever is on the way was committed. */
  ghost predicate Stems(p: Pipeline, made: set<Msg>) {
    && OneEach(made)
    && (forall m :: m in p.outbox || m in p.queue ==> m in made)
    && (forall v :: v in p.committed <==> exists m :: m in made && m.videoID == v)
  }

  /** The entries of the applied messages: scored with the time at which the message was committed. */
  function AppliedEntries(made: set<Msg>, applied: set<nat>): set<ZMember> {
    set m | m in made && m.videoID in applied :: ZMember(m.createTime, m.videoID)
  }

  /** The timeline lies between the newest `cap` of those entries and all of them; `all` has them in rank order. */
  ghost predicate Shows(t: seq<ZMember>, all: seq<ZMember>, cap: nat, made: set<Msg>, applied: set<nat>) {
    (forall x :: x in all <==> x in AppliedEntries(made, applied)) && Between(t, all, cap)
  }

  ghost predicate Shown(p: Pipeline, cap: nat, made: set<Msg>) {
    exists all :: Shows(p.timeline, all, cap, made, p.applied)
  }

  // ---- One insert ---------------------------------------------------------------------------------

  lemma EntriesAfter(made: set<Msg>, applied: set<nat>, m: Msg, x: ZMember)
    requires OneEach(made) && m in made
    ensures x in AppliedEntries(made, applied + {m.videoID}) <==>
      x == ZMember(m.createTime, m.videoID) || x in AppliedEntries(made, applied)
    ensures x in AppliedEntries(made, applied) && x.member == m.videoID ==> x == ZMember(m.createTime, m.videoID)
  {}

  lemma InsertShows(t: seq<ZMember>, all: seq<ZMember>, cap: nat, made: set<Msg>, applied: set<nat>, m: Msg, trim: bool)
    requires OneEach(made) && m in made && Shows(t, all, cap, made, applied)
    ensures var e := ZMember(m.createTime, m.videoID);
      Shows(Written(t, cap, Write(e, trim)), Add(all, e), cap, made, applied + {m.videoID})
  {
    var e := ZMember(m.createTime, m.videoID);
    forall x: ZMember { EntriesAfter(made, applied, m, x); }
    AddBetween(t, all, cap, e);
    AddSpec(all, e);
    CutBetween(Add(t, e), Add(all, e), cap);
  }

  lemma WriteShown(p: Pipeline, q: Pipeline, cap: nat, made: set<Msg>, m: Msg, trim: bool)
    requires OneEach(made) && m in made && Shown(p, cap, made)
    requires q.timeline == Written(p.timeline, cap, Write(ZMember(m.createTime, m.videoID), trim))
    requires q.applied == p.applied + {m.videoID}
    ensures Shown(q, cap, made)
  {
    var all :| Shows(p.timeline, all, cap, made, p.applied);
    InsertShows(p.timeline, all, cap, made, p.applied, m, trim);
  }

  lemma SameShown(p: Pipeline, q: Pipeline, cap: nat, made: set<Msg>)
    requires Shown(p, cap, made) && q.timeline == p.timeline && q.applied == p.applied
    ensures Shown(q, cap, made)
  {
    var all :| Shows(p.timeline, all, cap, made, p.applied);
    assert Shows(q.timeline, all, cap, made, q.applied);
  }

  // ---- Every step ---------------------------------------------------------------------------------

  lemma SendShown(p: Pipeline, cap: nat, made: set<Msg>, m: Msg, s: Send)
    requires OneEach(made) && m in made && Shown(p, cap, made)
    ensures Shown(Sent(p, cap, m, s), cap, made)
  {
    var q := Sent(p, cap, m, s);
    if WritesDirectly(s) {
      WriteShown(p, q, cap, made, m, s.trim);
    } else {
      SameShown(p, q, cap, made);
    }
  }

  lemma {:induction false} PollShown(p: Pipeline, cap: nat, made: set<Msg>, msgs: seq<Msg>, sends: seq<Send>)
    requires OneEach(made) && (forall m :: m in msgs ==> m in made) && |msgs| <= |sends| && Shown(p, cap, made)
    ensures Shown(SentAll(p, cap, msgs, sends), cap, made)
  {
    if msgs != [] {
      var n := |msgs| - 1;
      PollShown(p, cap, made, msgs[..n], sends);
      SendShown(SentAll(p, cap, msgs[..n], sends), cap, made, msgs[n], sends[n]);
    }
  }

  lemma {:induction false} TriesShown(p: Pipeline, cap: nat, made: set<Msg>, m: Msg, attempts: seq<Attempt>)
    requires OneEach(made) && m in made && Shown(p, cap, made)
    ensures Shown(Tried(p, cap, m, attempts), cap, made)
  {
    if attempts != [] {
      var n := |attempts| - 1;
      TriesShown(p, cap, made, m, attempts[..n]);
      if attempts[n].add {
        WriteShown(Tried(p, cap, m, attempts[..n]), Tried(p, cap, m, attempts), cap, made, m, attempts[n].trim);
      }
    }
  }

  lemma HandleShown(p: Pipeline, cap: nat, made: set<Msg>, i: nat, attempts: seq<Attempt>, settled: bool)
    requires OneEach(made) && i < |p.queue| && p.queue[i] in made && |attempts| == RETRIES && Shown(p, cap, made)
    ensures Shown(Handled(p, cap, i, attempts, settled), cap, made)
  {
    var tried := attempts[..Made(attempts)];
    TriesShown(p, cap, made, p.queue[i], tried);
    SameShown(Tried(p, cap, p.queue[i], tried), Handled(p, cap, i, attempts, settled), cap, made);
  }

  lemma CommitShown(p: Pipeline, cap: nat, made: set<Msg>, m: Msg)
    requires m.videoID !in p.applied && Shown(p, cap, made)
    ensures Shown(Committed(p, m, true), cap, made + {m})
  {
    var all :| Shows(p.timeline, all, cap, made, p.applied);
    assert AppliedEntries(made + {m}, p.applied) == AppliedEntries(made, p.applied);
    assert Shows(Committed(p, m, true).timeline, all, cap, made + {m}, p.applied);
  }

  // ---- Where messages come from -------------------------------------------------------------------

  lemma {:induction false} PollStems(p: Pipeline, cap: nat, msgs: seq<Msg>, sends: seq<Send>)
    requires |msgs| <= |sends|
    ensures var q := SentAll(p, cap, msgs, sends);
      && q.committed == p.committed
      && (forall m :: m in q.outbox ==> m in p.outbox) && (forall m :: m in q.queue ==> m in p.queue || m in msgs)
  {
    if msgs != [] {
      var n := |msgs| - 1;
      PollStems(p, cap, msgs[..n], sends);
      var q := SentAll(p, cap, msgs[..n], sends);
      forall m ensures m in Filter(q.outbox, OtherRow(msgs[n].id)) ==> m in q.outbox {
        FilterIn(q.outbox, OtherRow(msgs[n].id), m);
      }
      assert msgs == msgs[..n] + [msgs[n]];
    }
  }

  lemma {:induction false} TriesStem(p: Pipeline, cap: nat, m: Msg, attempts: seq<Attempt>)
    ensures var q := Tried(p, cap, m, attempts);
      q.committed == p.committed && q.outbox == p.outbox && q.queue == p.queue && q.dropped == p.dropped
  {
    if attempts != [] {
      TriesStem(p, cap, m, attempts[..|attempts| - 1]);
    }
  }

  lemma CommitStems(p: Pipeline, made: set<Msg>, m: Msg)
    requires Stems(p, made) && m.videoID !in p.committed
    ensures Stems(Committed(p, m, true), made + {m})
  {
    var q := Committed(p, m, true);
    forall v ensures v in q.committed <==> exists n :: n in made + {m} && n.videoID == v {
      if v == m.videoID { assert m in made + {m}; }
      if n :| n in made && n.videoID == v { assert n in made + {m}; }
    }
  }

  lemma StepStems(p: Pipeline, cap: nat, made: set<Msg>, step: Step)
    requires WellFormed(p) && Stems(p, made) && Shown(p, cap, made) && Enabled(p, step)
    ensures var after := made + match step case Create(m, true) => {m} case _ => {};
      Stems(Next(p, cap, step), after) && Shown(Next(p, cap, step), cap, after)
  {
    match step
    case Create(m, commits) =>
      if commits {
        CommitStems(p, made, m);
        CommitShown(p, cap, made, m);
      } else {
        assert made + {} == made;
      }
    case PollOnce(sends) =>
      assert made + {} == made;
      PollStems(p, cap, Take(p.outbox, BATCH), sends);
      PollShown(p, cap, made, Take(p.outbox, BATCH), sends);
    case Receive(i, attempts, settled) =>
      assert made + {} == made;
      assert p.queue[i] in p.queue;
      TriesStem(p, cap, p.queue[i], attempts[..Made(attempts)]);
      HandleShown(p, cap, made, i, attempts, settled);
  }

  /** At every moment of every run each timeline entry is a committed message's video, scored with that message's own
      time, and the timeline lies between the newest `cap` of the applied messages and all of them. */
  lemma {:induction false} TimelineIsApplied(states: seq<Pipeline>, cap: nat, steps: seq<Step>, i: nat)
    requires IsRun(states, cap, steps) && i < |states|
    ensures var made, t := Created(steps, i), states[i].timeline;
      && Stems(states[i], made) && Shown(states[i], cap, made)
      && (forall e :: e in t ==> exists m :: m in made && m.videoID in states[i].applied
                                             && e == ZMember(m.createTime, m.videoID))
      && (|states[i].applied| <= cap ==> forall m :: m in made && m.videoID in states[i].applied ==>
            ZMember(m.createTime, m.videoID) in t)
  {
    if i == 0 {
      assert Shows([], [], cap, {}, {});
    } else {
      TimelineIsApplied(states, cap, steps, i - 1);
      EventsAreConserved(states, cap, steps, i - 1);
      StepStems(states[i - 1], cap, Created(steps, i - 1), steps[i - 1]);
      assert states[i] == Next(states[i - 1], cap, steps[i - 1]);
    }
    ShownHolds(states[i], cap, Created(steps, i));
  }

  lemma ShownHolds(p: Pipeline, cap: nat, made: set<Msg>)
    requires OneEach(made) && Shown(p, cap, made)
    ensures forall e :: e in p.timeline ==> exists m :: m in made && m.videoID in p.applied
                                                        && e == ZMember(m.createTime, m.videoID)
    ensures |p.applied| <= cap ==> forall m :: m in made && m.videoID in p.applied ==>
              ZMember(m.createTime, m.videoID) in p.timeline
  {
    var all :| Shows(p.timeline, all, cap, made, p.applied);
    if |p.applied| <= cap {
      FewEntries(all, p.applied);
      forall m | m in made && m.videoID in p.applied ensures ZMember(m.createTime, m.videoID) in p.timeline {
        assert ZMember(m.createTime, m.videoID) in AppliedEntries(made, p.applied);
      }
    }
  }

  lemma {:induction false} FewEntries(all: seq<ZMember>, videos: set<nat>)
    requires (forall i, j :: 0 <= i < j < |all| ==> all[i].member != all[j].member)
    requires forall x :: x in all ==> x.member in videos
    ensures |all| <= |videos|
  {
    if all != [] {
      var n := |all| - 1;
      assert all[n] in all;
      forall x | x in all[..n] ensures x.member in videos - {all[n].member} {
        var i :| 0 <= i < n && all[i] == x;
      }
      FewEntries(all[..n], videos - {all[n].member});
    }
  }

  // ---- What a send and a delivery do -----------------------------------------------------------------

  /** A row goes exactly when the delete works and the broker did not report an error, or else the timeline was
      written and cut; the message is queued exactly when it arrived; other rows stay. */
  lemma SendOutcome(p: Pipeline, cap: nat, m: Msg, s: Send)
    requires DistinctRows(p.outbox) && m in p.outbox
    ensures var q := Sent(p, cap, m, s);
      var written := s.hasCache && s.add && !s.publish.Accepted? && !s.publish.Released?;
      && q.queue == (if s.publish.Accepted? || s.publish.LostAck? then p.queue + [m] else p.queue)
      && (m !in q.outbox <==> s.delete && (s.publish.Accepted? || s.publish.Released? || (written && s.trim)))
      && (forall n :: n != m ==> (n in q.outbox <==> n in p.outbox))
      && q.applied == (if written then p.applied + {m.videoID} else p.applied)
  {
    SentRows(p, cap, m, s);
  }

  predicate Works(a: Attempt) {
    a.add && a.trim && a.follow
  }

  lemma {:induction false} MadeIsFirst(attempts: seq<Attempt>)
    ensures forall j :: 0 <= j < Made(attempts) - 1 ==> !Works(attempts[j])
    ensures Made(attempts) == |attempts| || (0 < Made(attempts) && Works(attempts[Made(attempts) - 1]))
  {
    if attempts != [] && !Succeeds(attempts[0]) {
      MadeIsFirst(attempts[1..]);
    }
  }

  lemma {:induction false} TriedApplies(p: Pipeline, cap: nat, m: Msg, attempts: seq<Attempt>)
    ensures Tried(p, cap, m, attempts).applied ==
      if exists j :: 0 <= j < |attempts| && attempts[j].add then p.applied + {m.videoID} else p.applied
  {
    if attempts != [] {
      var n := |attempts| - 1;
      TriedApplies(p, cap, m, attempts[..n]);
      if j :| 0 <= j < n && attempts[j].add { assert attempts[..n][j].add; }
    }
  }

  /** An attempt is made when none before it worked. */
  ghost predicate IsMade(attempts: seq<Attempt>, j: int) {
    0 <= j < |attempts| && forall k :: 0 <= k < j ==> !Works(attempts[k])
  }

  ghost predicate Inserts(attempts: seq<Attempt>) {
    exists j :: IsMade(attempts, j) && attempts[j].add
  }

  ghost predicate AnyWorks(attempts: seq<Attempt>) {
    exists j :: 0 <= j < |attempts| && Works(attempts[j])
  }

  lemma MadeAre(attempts: seq<Attempt>)
    ensures forall j :: IsMade(attempts, j) <==> 0 <= j < Made(attempts)
    ensures attempts != [] ==> (AnyWorks(attempts) <==> Made(attempts) > 0 && Works(attempts[Made(attempts) - 1]))
    ensures attempts != [] && !AnyWorks(attempts) ==> Made(attempts) == |attempts|
  {
    MadeIsFirst(attempts);
    var n := Made(attempts);
    if n > 0 && Works(attempts[n - 1]) {
      forall j ensures IsMade(attempts, j) <==> 0 <= j < n {}
    }
  }

  lemma InsertsIff(attempts: seq<Attempt>)
    ensures Inserts(attempts) <==> exists j :: 0 <= j < Made(attempts) && attempts[..Made(attempts)][j].add
  {
    MadeAre(attempts);
    var first := attempts[..Made(attempts)];
    if Inserts(attempts) {
      var j :| IsMade(attempts, j) && attempts[j].add;
      assert first[j].add;
    }
    if j :| 0 <= j < Made(attempts) && first[j].add {
      assert IsMade(attempts, j) && attempts[j].add;
    }
  }

  /** Of up to three attempts, the video is applied exactly when one that was made inserted it, and dropped, with its
      three attempts recorded, exactly when none of them worked; the message leaves the queue when it is settled. */
  lemma HandleOutcome(p: Pipeline, cap: nat, i: nat, attempts: seq<Attempt>, settled: bool)
    requires i < |p.queue| && |attempts| == 3
    ensures var m, q := p.queue[i], Handled(p, cap, i, attempts, settled);
      && q.applied == (if Inserts(attempts) then p.applied + {m.videoID} else p.applied)
      && q.dropped == (if AnyWorks(attempts) then p.dropped else p.dropped[m.videoID := 3])
      && q.queue == (if settled then p.queue[..i] + p.queue[i + 1..] else p.queue)
      && q.outbox == p.outbox && q.committed == p.committed
  {
    var m, first := p.queue[i], attempts[..Made(attempts)];
    MadeAre(attempts);
    InsertsIff(attempts);
    TriedApplies(p, cap, m, first);
    TriesStem(p, cap, m, first);
  }

  // ---- When nothing fails ------------------------------------------------------------------------------

  lemma NextRow(rows: seq<Msg>)
    requires DistinctRows(rows) && rows != []
    ensures Filter(rows, OtherRow(rows[0].id)) == rows[1..]
  {
    FilterAll(rows[1..], OtherRow(rows[0].id));
  }

  lemma {:induction false} BatchMoves(p: Pipeline, cap: nat, sends: seq<Send>, n: nat)
    requires DistinctRows(p.outbox) && n <= |p.outbox| && n <= |sends|
    requires forall k :: 0 <= k < n ==> sends[k].publish.Accepted? && sends[k].delete
    ensures SentAll(p, cap, p.outbox[..n], sends) == p.(queue := p.queue + p.outbox[..n], outbox := p.outbox[n..])
  {
    if n > 0 {
      BatchMoves(p, cap, sends, n - 1);
      assert p.outbox[..n][..n - 1] == p.outbox[..n - 1];
      NextRow(p.outbox[n - 1..]);
      assert p.outbox[..n] == p.outbox[..n - 1] + [p.outbox[n - 1]];
    } else {
      assert p.queue + p.outbox[..0] == p.queue;
    }
  }

  ghost predicate GoodPoll(step: Step) {
    && step.PollOnce? && |step.sends| >= 100
    && forall k :: 0 <= k < 100 ==> step.sends[k].publish.Accepted? && step.sends[k].delete
  }

  /** A poll whose publishes are accepted moves the oldest hundred rows to the queue, in their order. */
  lemma PollMovesHundred(p: Pipeline, cap: nat, step: Step)
    requires DistinctRows(p.outbox) && GoodPoll(step) && Enabled(p, step)
    ensures var n := if |p.outbox| < 100 then |p.outbox| else 100;
      Next(p, cap, step) == p.(queue := p.queue + p.outbox[..n], outbox := p.outbox[n..])
  {
    var n := if |p.outbox| < 100 then |p.outbox| else 100;
    assert Take(p.outbox, BATCH) == p.outbox[..n];
    BatchMoves(p, cap, step.sends, n);
  }

  lemma MovedIsSame(queue: seq<Msg>, outbox: seq<Msg>, n: nat)
    requires n <= |outbox|
    ensures (queue + outbox[..n]) + outbox[n..] == queue + outbox
  {}

  /** So `n` such polls move the oldest `100 * n` rows, and no event overtakes another. */
  lemma {:induction false} BacklogDrains(states: seq<Pipeline>, cap: nat, steps: seq<Step>, from: nat, n: nat)
    requires IsRun(states, cap, steps) && from + n <= |steps|
    requires forall k :: from <= k < from + n ==> GoodPoll(steps[k])
    ensures states[from + n].queue + states[from + n].outbox == states[from].queue + states[from].outbox
    ensures |states[from + n].outbox| == if 100 * n < |states[from].outbox| then |states[from].outbox| - 100 * n else 0
  {
    if n > 0 {
      var k := from + n - 1;
      BacklogDrains(states, cap, steps, from, n - 1);
      EventsAreConserved(states, cap, steps, k);
      var r := states[k];
      assert GoodPoll(steps[k]) && Enabled(r, steps[k]) && states[k + 1] == Next(r, cap, steps[k]);
      PollMovesHundred(r, cap, steps[k]);
      MovedIsSame(r.queue, r.outbox, if |r.outbox| < 100 then |r.outbox| else 100);
    }
  }
}
