/** The rows that a run of the counters leaves, told from its steps alone: which comments are stored under which ids,
    and which videos are there. */
module CounterRuns {
  import opened Sequences
  import opened Counters

  /** A comment and the id it was stored under. */
  datatype Kept = Kept(id: nat, comment: Comment)

  /** Ids are handed out from one on, one for each comment whose event id has no row. */
  function NextId(steps: seq<Step>): nat {
    if steps == [] then 1
    else
      var before, step := steps[..|steps| - 1], steps[|steps| - 1];
      NextId(before) + if step.AddComment? && RowOf(before, step.c.eventID) == None then 1 else 0
  }

  /** The row of an event id: the first comment that named it since its last row was removed, unless that row has
      been removed too, by its id or with its video. */
  function RowOf(steps: seq<Step>, event: string): Option<Kept> {
    if steps == [] then None
    else
      var before := steps[..|steps| - 1];
      var row := RowOf(before, event);
      match steps[|steps| - 1]
      case AddComment(c) => if row == None && c.eventID == event then Some(Kept(NextId(before), c)) else row
      case RemoveComment(id) => if row.Some? && row.value.id == id then None else row
      case DeleteVideo(v) => if row.Some? && row.value.comment.videoID == v then None else row
      case _ => row
  }

  function NextVideo(steps: seq<Step>): nat {
    if steps == [] then 1
    else NextVideo(steps[..|steps| - 1]) + if steps[|steps| - 1].CreateVideo? then 1 else 0
  }

  predicate IsThere(steps: seq<Step>, v: nat) {
    steps != [] &&
    var before := steps[..|steps| - 1];
    match steps[|steps| - 1]
    case CreateVideo => IsThere(before, v) || v == NextVideo(before)
    case DeleteVideo(w) => IsThere(before, v) && v != w
    case _ => IsThere(before, v)
  }

  lemma {:induction false} RowHasItsEvent(steps: seq<Step>, event: string)
    ensures RowOf(steps, event).Some? ==> RowOf(steps, event).value.comment.eventID == event
  {
    if steps != [] {
      RowHasItsEvent(steps[..|steps| - 1], event);
    }
  }

  // ---- The tables hold just that ----------------------------------------------------------------

  ghost predicate Holds(t: Tables, steps: seq<Step>, id: nat, c: Comment) {
    id in t.comments && t.comments[id] == c <==> RowOf(steps, c.eventID) == Some(Kept(id, c))
  }

  lemma SeenIff(t: Tables, steps: seq<Step>, event: string)
    requires forall id: nat, c: Comment :: Holds(t, steps, id, c)
    ensures Seen(t, event) <==> RowOf(steps, event).Some?
  {
    RowHasItsEvent(steps, event);
    if RowOf(steps, event).Some? {
      var row := RowOf(steps, event).value;
      assert Holds(t, steps, row.id, row.comment);
    }
    if id :| id in t.comments && t.comments[id].eventID == event {
      assert Holds(t, steps, id, t.comments[id]);
    }
  }

  lemma CommentHolds(t: Tables, steps: seq<Step>, c: Comment, id: nat, d: Comment)
    requires Consistent(t) && t.nextComment == NextId(steps)
    requires forall i: nat, e: Comment :: Holds(t, steps, i, e)
    ensures Holds(Commented(t, c), steps + [AddComment(c)], id, d)
  {
    var longer := steps + [AddComment(c)];
    assert longer[..|longer| - 1] == steps;
    SeenIff(t, steps, c.eventID);
    assert Holds(t, steps, id, d);
  }

  lemma RemovalHolds(t: Tables, steps: seq<Step>, gone: nat, id: nat, d: Comment)
    requires Consistent(t) && Holds(t, steps, id, d)
    ensures Holds(Uncommented(t, gone), steps + [RemoveComment(gone)], id, d)
  {
    var longer := steps + [RemoveComment(gone)];
    assert longer[..|longer| - 1] == steps;
    NeverBelowZero(t, 0, 0, NONE);
    assert Uncommented(t, gone).comments == t.comments - {gone};
  }

  lemma DeletionHolds(t: Tables, steps: seq<Step>, v: nat, id: nat, d: Comment)
    requires Holds(t, steps, id, d)
    ensures Holds(VideoDeleted(t, v), steps + [DeleteVideo(v)], id, d)
  {
    var longer := steps + [DeleteVideo(v)];
    assert longer[..|longer| - 1] == steps;
  }

  lemma OtherHolds(t: Tables, steps: seq<Step>, step: Step, id: nat, d: Comment)
    requires (step.CreateVideo? || step.Rate?) && Holds(t, steps, id, d)
    ensures Holds(Next(t, step), steps + [step], id, d)
  {
    var longer := steps + [step];
    assert longer[..|longer| - 1] == steps;
  }

  lemma StepHolds(t: Tables, steps: seq<Step>, step: Step, id: nat, d: Comment)
    requires Consistent(t) && t.nextComment == NextId(steps)
    requires forall i: nat, e: Comment :: Holds(t, steps, i, e)
    ensures Holds(Next(t, step), steps + [step], id, d)
  {
    match step
    case AddComment(c) => CommentHolds(t, steps, c, id, d);
    case RemoveComment(gone) => RemovalHolds(t, steps, gone, id, d);
    case DeleteVideo(v) => DeletionHolds(t, steps, v, id, d);
    case _ => OtherHolds(t, steps, step, id, d);
  }

  lemma StepIds(t: Tables, steps: seq<Step>, step: Step)
    requires t.nextComment == NextId(steps)
    requires step.AddComment? ==> (Seen(t, step.c.eventID) <==> RowOf(steps, step.c.eventID).Some?)
    ensures Next(t, step).nextComment == NextId(steps + [step])
  {
    assert (steps + [step])[..|steps|] == steps;
  }

  lemma StepVideos(t: Tables, steps: seq<Step>, step: Step, v: nat)
    requires t.nextVideo == NextVideo(steps) && (v in t.videos <==> IsThere(steps, v))
    ensures Next(t, step).nextVideo == NextVideo(steps + [step])
    ensures v in Next(t, step).videos <==> IsThere(steps + [step], v)
  {
    assert (steps + [step])[..|steps|] == steps;
  }

  ghost predicate Matches(t: Tables, steps: seq<Step>) {
    && (forall id: nat, c: Comment :: Holds(t, steps, id, c))
    && (forall v: nat :: v in t.videos <==> IsThere(steps, v))
    && t.nextComment == NextId(steps) && t.nextVideo == NextVideo(steps)
  }

  lemma StepMatches(t: Tables, steps: seq<Step>, step: Step)
    requires Consistent(t) && Matches(t, steps)
    ensures Matches(Next(t, step), steps + [step])
  {
    if step.AddComment? { SeenIff(t, steps, step.c.eventID); }
    StepIds(t, steps, step);
    forall v: nat ensures v in Next(t, step).videos <==> IsThere(steps + [step], v) { StepVideos(t, steps, step, v); }
    StepVideos(t, steps, step, 0);
    forall id: nat, c: Comment ensures Holds(Next(t, step), steps + [step], id, c) { StepHolds(t, steps, step, id, c); }
  }

  lemma {:induction false} RunMatches(steps: seq<Step>)
    requires AllEnabled(steps)
    ensures Matches(RunAll(steps), steps)
  {
    if steps != [] {
      var before, step := steps[..|steps| - 1], steps[|steps| - 1];
      RunMatches(before);
      CountersAreConserved(before);
      StepMatches(RunAll(before), before, step);
      assert steps == before + [step];
    }
  }

  /** After any run, with any repeats and in any order: the comment rows are exactly the first comment of each event
      id since its last removal, less those removed since, under ids handed out in turn; and the videos are those
      created and not deleted. */
  lemma RowsAreFirsts(steps: seq<Step>)
    requires AllEnabled(steps)
    ensures var t := RunAll(steps);
      && (forall id: nat, c: Comment :: id in t.comments && t.comments[id] == c <==>
            RowOf(steps, c.eventID) == Some(Kept(id, c)))
      && (forall v: nat :: v in t.videos <==> IsThere(steps, v))
      && t.nextComment == NextId(steps) && t.nextVideo == NextVideo(steps)
  {
    RunMatches(steps);
    forall id: nat, c: Comment
      ensures id in RunAll(steps).comments && RunAll(steps).comments[id] == c <==>
        RowOf(steps, c.eventID) == Some(Kept(id, c))
    {
      assert Holds(RunAll(steps), steps, id, c);
    }
  }

  /** So no two rows share an event id. */
  lemma OneRowForAnEvent(steps: seq<Step>, i: nat, j: nat)
    requires AllEnabled(steps)
    requires var comments := RunAll(steps).comments;
      i in comments && j in comments && comments[i].eventID == comments[j].eventID
    ensures i == j
  {
    RowsAreFirsts(steps);
    var t := RunAll(steps);
    assert RowOf(steps, t.comments[i].eventID) == Some(Kept(i, t.comments[i]));
    assert RowOf(steps, t.comments[j].eventID) == Some(Kept(j, t.comments[j]));
  }

  /** A comment that comes again changes nothing at all; a new one adds one row and one to its video's count. */
  lemma CommentCountsOnce(steps: seq<Step>, c: Comment)
    requires AllEnabled(steps)
    ensures var t, u := RunAll(steps), RunAll(steps + [AddComment(c)]);
      if RowOf(steps, c.eventID).Some? then u == t
      else
        && u.comments == t.comments[NextId(steps) := c]
        && (c.videoID in t.videos ==> u.videos[c.videoID].comments == t.videos[c.videoID].comments + 1)
        && (forall v :: v in t.videos && v != c.videoID ==> v in u.videos && u.videos[v] == t.videos[v])
  {
    var t := RunAll(steps);
    RunMatches(steps);
    SeenIff(t, steps, c.eventID);
    RunSnoc(steps, AddComment(c));
  }
}
