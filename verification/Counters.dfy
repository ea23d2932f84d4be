/** Ratings, comments and the denormalised counts on videos: each transaction keeps every
    existing video's counts equal to its rows, however often and in whatever order events arrive. */
module Counters {
  import opened Sequences

  datatype Counts = Counts(liked: int, disliked: int, comments: int)

  datatype Comment = Comment(eventID: string, videoID: nat, authorID: nat, accountID: nat, content: string)

  /** Ratings are keyed by (video, account). Ids below `nextVideo` and `nextComment` have been handed out. */
  datatype Tables = Tables(videos: map<nat, Counts>, ratings: map<(nat, nat), int>, comments: map<nat, Comment>,
                           nextVideo: nat, nextComment: nat)

  const LIKE: int := 1
  const DISLIKE: int := -1
  const NONE: int := 0

  /** The change in (liked, disliked) when one vote goes from `old` to `new`. */
  function DeltaCount(oldStat: int, newStat: int): (int, int) {
    var likeOld, dislikeOld := if oldStat == 1 then 1 else 0, if oldStat == -1 then 1 else 0;
    var likeNew, dislikeNew := if newStat == 1 then 1 else 0, if newStat == -1 then 1 else 0;
    (likeNew - likeOld, dislikeNew - dislikeOld)
  }

  // ---- The transactions as functions --------------------------------------------------------

  /** The count columns are unsigned: an expression that would fall below zero is an error, before GREATEST sees it. */
  predicate BelowZero(t: Tables, v: nat, like: int, dislike: int) {
    v in t.videos && (t.videos[v].liked + like < 0 || t.videos[v].disliked + dislike < 0)
  }

  /** UPDATE ... WHERE id: no row, no effect. */
  function Bump(t: Tables, v: nat, like: int, dislike: int): Tables {
    if v !in t.videos then t
    else
      var c := t.videos[v];
      t.(videos := t.videos[v := c.(liked := c.liked + like, disliked := c.disliked + dislike)])
  }

  function StatusOf(t: Tables, v: nat, a: nat): int {
    if (v, a) in t.ratings then t.ratings[(v, a)] else NONE
  }

  /** The row that a query for this vote finds. */
  function Row(t: Tables, v: nat, a: nat): Option<int> {
    if (v, a) in t.ratings then Some(t.ratings[(v, a)]) else None
  }

  function Status(row: Option<int>): int {
    match row case None => NONE case Some(status) => status
  }

  /** SetRating reads the row and writes what follows from it. */
  function Rated(t: Tables, v: nat, a: nat, status: int): Tables {
    RatedAs(t, v, a, status, Row(t, v, a))
  }

  /** The same vote again is a no-op. */
  predicate NothingToDo(status: int, read: Option<int>) {
    Status(read) == status
  }

  /** An insert fails on a row that is there by now, and a count that would fall below zero is an error: both roll
      the transaction back. */
  predicate RatingAborts(t: Tables, v: nat, a: nat, status: int, read: Option<int>) {
    var (like, dislike) := DeltaCount(Status(read), status);
    !NothingToDo(status, read) && ((read == None && (v, a) in t.ratings) || BelowZero(t, v, like, dislike))
  }

  /** The writes of that transaction, for the row it read: a delete or an update does not check that it found one. */
  function RatedAs(t: Tables, v: nat, a: nat, status: int, read: Option<int>): Tables {
    if NothingToDo(status, read) || RatingAborts(t, v, a, status, read) then t
    else
      var (like, dislike) := DeltaCount(Status(read), status);
      var ratings := if status == NONE then t.ratings - {(v, a)}
                     else if read == None || (v, a) in t.ratings then t.ratings[(v, a) := status]
                     else t.ratings;
      Bump(t.(ratings := ratings), v, like, dislike)
  }

  predicate Seen(t: Tables, eventID: string) {
    exists id :: id in t.comments && t.comments[id].eventID == eventID
  }

  /** Create: an event id already present is skipped without counting. */
  function Commented(t: Tables, c: Comment): Tables {
    if Seen(t, c.eventID) then t
    else
      var u := t.(comments := t.comments[t.nextComment := c], nextComment := t.nextComment + 1);
      if c.videoID !in t.videos then u
      else u.(videos := u.videos[c.videoID := u.videos[c.videoID].(comments := u.videos[c.videoID].comments + 1)])
  }

  /** The video a comment is read to be on: a missing comment reads as video 0, which no row has. */
  function VideoOf(t: Tables, id: nat): nat {
    if id in t.comments then t.comments[id].videoID else 0
  }

  function Uncommented(t: Tables, id: nat): Tables {
    UncommentedAs(t, id, VideoOf(t, id))
  }

  /** The writes of that transaction, for the video it read the comment to be on; at a count of zero they roll back. */
  function UncommentedAs(t: Tables, id: nat, v: nat): Tables {
    if UncountAborts(t, v) then t
    else
      var u := t.(comments := t.comments - {id});
      if v !in u.videos then u
      else u.(videos := u.videos[v := u.videos[v].(comments := u.videos[v].comments - 1)])
  }

  predicate UncountAborts(t: Tables, v: nat) {
    v in t.videos && t.videos[v].comments - 1 < 0
  }

  /** Deleting a video takes its ratings and comments with it. */
  function VideoDeleted(t: Tables, v: nat): Tables {
    t.(videos := t.videos - {v},
       ratings := map k | k in t.ratings && k.0 != v :: t.ratings[k],
       comments := map id | id in t.comments && t.comments[id].videoID != v :: t.comments[id])
  }

  function VideoCreated(t: Tables): Tables {
    t.(videos := t.videos[t.nextVideo := Counts(0, 0, 0)], nextVideo := t.nextVideo + 1)
  }

  // ---- The repository -----------------------------------------------------------------------

  class Repository {
    var tables: Tables

    constructor ()
      ensures tables == Tables(map[], map[], map[], 1, 1)
    {
      tables := Tables(map[], map[], map[], 1, 1);
    }

    /** One transaction; `fails` aborts it. Reports whether the entity cache has to be invalidated. */
    method SetRating(v: nat, a: nat, status: int, fails: bool) returns (ok: bool, changed: bool)
      modifies this
      ensures ok == (!fails && !RatingAborts(old(tables), v, a, status, Row(old(tables), v, a)))
      ensures tables == if fails then old(tables) else Rated(old(tables), v, a, status)
      ensures changed == (ok && StatusOf(old(tables), v, a) != status)
    {
      changed := false;
      if fails {
        return false, false;
      }
      var before := tables;
      var found := (v, a) in tables.ratings;
      var oldStat := if found then tables.ratings[(v, a)] else NONE;
      if !found {
        if status == NONE {
          return true, false;
        }
        tables := tables.(ratings := tables.ratings[(v, a) := status]);
      }
      if oldStat == status {
        return true, false;
      }
      if status == NONE {
        tables := tables.(ratings := tables.ratings - {(v, a)});
      } else {
        tables := tables.(ratings := tables.ratings[(v, a) := status]);
      }
      var (like, dislike) := DeltaCount(oldStat, status);
      if BelowZero(tables, v, like, dislike) {
        tables := before;
        return false, false;
      }
      tables := Bump(tables, v, like, dislike);
      return true, true;
    }

    /** `newID` is the random event id given to a comment that comes without one. */
    method CreateComment(c: Comment, newID: string, fails: bool) returns (ok: bool)
      modifies this
      ensures ok == (c.videoID != 0 && c.authorID != 0 && c.accountID != 0 && c.content != "" && !fails)
      ensures tables == if !ok then old(tables)
                        else Commented(old(tables), if c.eventID == "" then c.(eventID := newID) else c)
      ensures (exists id :: id in old(tables).comments &&
                            old(tables).comments[id].eventID == (if c.eventID == "" then newID else c.eventID)) ==>
        tables == old(tables)
    {
      if c.videoID == 0 || c.authorID == 0 || c.accountID == 0 || c.content == "" {
        return false;
      }
      var d := c;
      if d.eventID == "" {
        d := d.(eventID := newID);
      }
      if fails {
        return false;
      }
      if Seen(tables, d.eventID) {
        return true;
      }
      tables := tables.(comments := tables.comments[tables.nextComment := d], nextComment := tables.nextComment + 1);
      if d.videoID in tables.videos {
        var counts := tables.videos[d.videoID];
        tables := tables.(videos := tables.videos[d.videoID := counts.(comments := counts.comments + 1)]);
      }
      return true;
    }

    method DeleteComment(id: nat, fails: bool) returns (ok: bool)
      modifies this
      ensures ok == (!fails && !UncountAborts(old(tables), VideoOf(old(tables), id)))
      ensures tables == if fails then old(tables) else Uncommented(old(tables), id)
    {
      if fails {
        return false;
      }
      var before := tables;
      var v := 0;
      if id in tables.comments {
        v := tables.comments[id].videoID;
      }
      tables := tables.(comments := tables.comments - {id});
      if v in tables.videos {
        var counts := tables.videos[v];
        if counts.comments - 1 < 0 {
          tables := before;
          return false;
        }
        tables := tables.(videos := tables.videos[v := counts.(comments := counts.comments - 1)]);
      }
      return true;
    }

    method DeleteVideo(v: nat, fails: bool) returns (ok: bool)
      modifies this
      ensures ok == !fails
      ensures tables == if fails then old(tables) else VideoDeleted(old(tables), v)
    {
      if fails {
        return false;
      }
      tables := tables.(ratings := map k | k in tables.ratings && k.0 != v :: tables.ratings[k]);
      tables := tables.(
        comments := map id | id in tables.comments && tables.comments[id].videoID != v :: tables.comments[id]);
      tables := tables.(videos := tables.videos - {v});
      return true;
    }
  }

  // ---- Counts equal rows ----------------------------------------------------------------------

  /** The rating rows that say `status` about `v`. */
  function Votes(ratings: map<(nat, nat), int>, v: nat, status: int): set<(nat, nat)> {
    set k | k in ratings && k.0 == v && ratings[k] == status
  }

  function CommentsOn(comments: map<nat, Comment>, v: nat): set<nat> {
    set id | id in comments && comments[id].videoID == v
  }

  ghost predicate CountsMatch(t: Tables, v: nat)
    requires v in t.videos
  {
    t.videos[v] == Counts(|Votes(t.ratings, v, LIKE)|, |Votes(t.ratings, v, DISLIKE)|, |CommentsOn(t.comments, v)|)
  }

  /** No row refers to a video id not yet handed out. */
  ghost predicate Consistent(t: Tables) {
    && 0 < t.nextVideo
    && (forall v :: v in t.videos ==> 0 < v < t.nextVideo && CountsMatch(t, v))
    && (forall k :: k in t.ratings ==> k.0 < t.nextVideo && t.ratings[k] != NONE)
    && (forall id :: id in t.comments ==> id < t.nextComment && t.comments[id].videoID < t.nextVideo)
  }

  /** Storing one account's vote moves exactly that row. */
  lemma VotesStored(ratings: map<(nat, nat), int>, k: (nat, nat), status: int, w: nat, s: int)
    ensures |Votes(ratings[k := status], w, s)| == |Votes(ratings, w, s)|
      + (if w == k.0 && status == s then 1 else 0) - (if k in ratings && w == k.0 && ratings[k] == s then 1 else 0)
  {
    var before, after := Votes(ratings, w, s), Votes(ratings[k := status], w, s);
    if w == k.0 && status == s {
      assert after == before + {k};
    } else {
      assert after == before - {k};
    }
  }

  lemma VotesDropped(ratings: map<(nat, nat), int>, k: (nat, nat), w: nat, s: int)
    ensures |Votes(ratings - {k}, w, s)| ==
      |Votes(ratings, w, s)| - if k in ratings && w == k.0 && ratings[k] == s then 1 else 0
  {
    assert Votes(ratings - {k}, w, s) == Votes(ratings, w, s) - {k};
  }

  /** A rating changes each count of its video by what that account's vote changed, and nothing else. */
  lemma VotesAfter(t: Tables, v: nat, a: nat, status: int, w: nat, s: int)
    requires s != NONE && !RatingAborts(t, v, a, status, Row(t, v, a))
    ensures |Votes(Rated(t, v, a, status).ratings, w, s)| == |Votes(t.ratings, w, s)| + if w != v then 0
      else (if status == s then 1 else 0) - (if StatusOf(t, v, a) == s then 1 else 0)
  {
    VotesStored(t.ratings, (v, a), status, w, s);
    VotesDropped(t.ratings, (v, a), w, s);
  }

  lemma RatedCounts(t: Tables, v: nat, a: nat, status: int, w: nat)
    requires w in t.videos && CountsMatch(t, w) && !RatingAborts(t, v, a, status, Row(t, v, a))
    ensures CountsMatch(Rated(t, v, a, status), w)
  {
    VotesAfter(t, v, a, status, w, LIKE);
    VotesAfter(t, v, a, status, w, DISLIKE);
  }

  lemma RatedKeeps(t: Tables, v: nat, a: nat, status: int)
    requires Consistent(t) && v < t.nextVideo
    ensures Consistent(Rated(t, v, a, status))
  {
    NeverBelowZero(t, v, a, status);
    forall w | w in t.videos ensures CountsMatch(Rated(t, v, a, status), w) {
      assert CountsMatch(t, w);
      RatedCounts(t, v, a, status, w);
    }
  }

  lemma VoterIsCounted(t: Tables, v: nat, a: nat)
    requires Consistent(t) && v in t.videos
    ensures StatusOf(t, v, a) == LIKE ==> t.videos[v].liked >= 1
    ensures StatusOf(t, v, a) == DISLIKE ==> t.videos[v].disliked >= 1
  {
    assert CountsMatch(t, v);
    assert (v, a) in t.ratings ==> (v, a) in Votes(t.ratings, v, t.ratings[(v, a)]);
  }

  /** In a consistent state no count ever falls below zero: no transaction aborts for that, and GREATEST has
      nothing to clamp. */
  lemma NeverBelowZero(t: Tables, v: nat, a: nat, status: int)
    requires Consistent(t)
    ensures !RatingAborts(t, v, a, status, Row(t, v, a))
    ensures forall id :: !UncountAborts(t, VideoOf(t, id))
  {
    if v in t.videos { VoterIsCounted(t, v, a); }
    forall w | w in t.videos ensures t.videos[w].liked >= 0 && t.videos[w].disliked >= 0 {
      assert CountsMatch(t, w);
    }
    forall id ensures !UncountAborts(t, VideoOf(t, id)) {
      if VideoOf(t, id) in t.videos {
        assert CountsMatch(t, VideoOf(t, id));
        assert id in CommentsOn(t.comments, VideoOf(t, id));
      }
    }
  }

  lemma CommentStored(comments: map<nat, Comment>, id: nat, c: Comment, w: nat)
    requires id !in comments
    ensures |CommentsOn(comments[id := c], w)| == |CommentsOn(comments, w)| + if w == c.videoID then 1 else 0
  {
    var before, after := CommentsOn(comments, w), CommentsOn(comments[id := c], w);
    if w == c.videoID {
      assert after == before + {id};
    } else {
      assert after == before;
    }
  }

  lemma CommentedKeeps(t: Tables, c: Comment)
    requires Consistent(t) && c.videoID < t.nextVideo
    ensures Consistent(Commented(t, c))
  {
    var u := Commented(t, c);
    forall w | w in u.videos ensures CountsMatch(u, w) {
      assert CountsMatch(t, w);
      CommentStored(t.comments, t.nextComment, c, w);
    }
  }

  /** Removing a comment takes it off its own video only. */
  lemma CommentsAfter(comments: map<nat, Comment>, id: nat, w: nat)
    ensures |CommentsOn(comments - {id}, w)| ==
      |CommentsOn(comments, w)| - if id in comments && comments[id].videoID == w then 1 else 0
  {
    assert CommentsOn(comments - {id}, w) == CommentsOn(comments, w) - {id};
    assert id in CommentsOn(comments, w) <==> id in comments && comments[id].videoID == w;
  }

  lemma UncommentedKeeps(t: Tables, id: nat)
    requires Consistent(t)
    ensures Consistent(Uncommented(t, id))
  {
    var u := Uncommented(t, id);
    forall w | w in u.videos ensures CountsMatch(u, w) {
      assert CountsMatch(t, w);
      CommentsAfter(t.comments, id, w);
    }
  }

  lemma VideoDeletedKeeps(t: Tables, v: nat)
    requires Consistent(t)
    ensures Consistent(VideoDeleted(t, v))
    ensures forall s :: Votes(VideoDeleted(t, v).ratings, v, s) == {}
    ensures CommentsOn(VideoDeleted(t, v).comments, v) == {}
  {
    var u := VideoDeleted(t, v);
    forall w | w in u.videos ensures CountsMatch(u, w) {
      assert CountsMatch(t, w);
      VotesKept(t, v, w, LIKE);
      VotesKept(t, v, w, DISLIKE);
      assert CommentsOn(u.comments, w) == CommentsOn(t.comments, w);
    }
  }

  lemma VotesKept(t: Tables, v: nat, w: nat, s: int)
    requires w != v
    ensures Votes(VideoDeleted(t, v).ratings, w, s) == Votes(t.ratings, w, s)
  {}

  lemma VideoCreatedKeeps(t: Tables)
    requires Consistent(t)
    ensures Consistent(VideoCreated(t))
  {}

  // ---- Whole runs -------------------------------------------------------------------------------

  datatype Step =
    | CreateVideo
    | Rate(v: nat, a: nat, status: int)
    | AddComment(c: Comment)
    | RemoveComment(id: nat)
    | DeleteVideo(v: nat)

  function Next(t: Tables, step: Step): Tables {
    match step
    case CreateVideo => VideoCreated(t)
    case Rate(v, a, status) => Rated(t, v, a, status)
    case AddComment(c) => Commented(t, c)
    case RemoveComment(id) => Uncommented(t, id)
    case DeleteVideo(v) => VideoDeleted(t, v)
  }

  /** Votes and comments only name videos whose ids have been handed out; they may be deleted by then. */
  predicate Enabled(t: Tables, step: Step) {
    match step
    case Rate(v, _, _) => v < t.nextVideo
    case AddComment(c) => c.videoID < t.nextVideo
    case _ => true
  }

  function RunAll(steps: seq<Step>): Tables {
    if steps == [] then Tables(map[], map[], map[], 1, 1) else Next(RunAll(steps[..|steps| - 1]), steps[|steps| - 1])
  }

  predicate AllEnabled(steps: seq<Step>) {
    steps == [] || (AllEnabled(steps[..|steps| - 1]) && Enabled(RunAll(steps[..|steps| - 1]), steps[|steps| - 1]))
  }

  /** The last vote of an account on a video, forgotten when the video is deleted. */
  function LastStatus(steps: seq<Step>, v: nat, a: nat): int {
    if steps == [] then NONE
    else
      match steps[|steps| - 1]
      case Rate(w, b, status) => if (w, b) == (v, a) then status else LastStatus(steps[..|steps| - 1], v, a)
      case DeleteVideo(w) => if w == v then NONE else LastStatus(steps[..|steps| - 1], v, a)
      case _ => LastStatus(steps[..|steps| - 1], v, a)
  }

  lemma StepKeeps(t: Tables, step: Step)
    requires Consistent(t) && Enabled(t, step)
    ensures Consistent(Next(t, step))
  {
    match step
    case CreateVideo => VideoCreatedKeeps(t);
    case Rate(v, a, status) => RatedKeeps(t, v, a, status);
    case AddComment(c) => CommentedKeeps(t, c);
    case RemoveComment(id) => UncommentedKeeps(t, id);
    case DeleteVideo(v) => VideoDeletedKeeps(t, v);
  }

  lemma RatingIsStored(t: Tables, w: nat, b: nat, status: int, v: nat, a: nat)
    requires Consistent(t)
    ensures StatusOf(Rated(t, w, b, status), v, a) == if (w, b) == (v, a) then status else StatusOf(t, v, a)
  {
    NeverBelowZero(t, w, b, status);
  }

  lemma StatusAfter(t: Tables, step: Step, v: nat, a: nat)
    requires Consistent(t) && Enabled(t, step)
    ensures StatusOf(Next(t, step), v, a) ==
      match step
      case Rate(w, b, status) => if (w, b) == (v, a) then status else StatusOf(t, v, a)
      case DeleteVideo(w) => if w == v then NONE else StatusOf(t, v, a)
      case _ => StatusOf(t, v, a)
  {
    match step
    case CreateVideo =>
    case Rate(w, b, status) => RatingIsStored(t, w, b, status, v, a);
    case AddComment(_) =>
    case RemoveComment(_) =>
    case DeleteVideo(_) =>
  }

  /** After any run, with any repeats and in any order: counts equal rows, and the ratings table
      says for every video and account what was said last. */
  lemma {:induction false} CountersAreConserved(steps: seq<Step>)
    requires AllEnabled(steps)
    ensures Consistent(RunAll(steps))
    ensures forall v, a :: StatusOf(RunAll(steps), v, a) == LastStatus(steps, v, a)
  {
    if steps != [] {
      var n := |steps| - 1;
      var t := RunAll(steps[..n]);
      CountersAreConserved(steps[..n]);
      StepKeeps(t, steps[n]);
      forall v, a ensures StatusOf(RunAll(steps), v, a) == LastStatus(steps, v, a) {
        StatusAfter(t, steps[n], v, a);
      }
    }
  }

  // ---- What the assumption is for -----------------------------------------------------------------

  ghost predicate AllMatch(t: Tables) {
    forall v :: v in t.videos ==> CountsMatch(t, v)
  }

  /** A new video starts from zero: its counts are right exactly when nothing was said about its id before. */
  lemma NewVideoMatchesIff(t: Tables)
    requires AllMatch(t) && t.nextVideo !in t.videos
    ensures AllMatch(VideoCreated(t)) <==>
      Votes(t.ratings, t.nextVideo, LIKE) == {} && Votes(t.ratings, t.nextVideo, DISLIKE) == {} &&
      CommentsOn(t.comments, t.nextVideo) == {}
  {
    var u, n := VideoCreated(t), t.nextVideo;
    assert n in u.videos;
    forall w | w in t.videos ensures CountsMatch(u, w) {
      assert CountsMatch(t, w);
    }
    assert CountsMatch(u, n) <==>
      |Votes(t.ratings, n, LIKE)| == 0 && |Votes(t.ratings, n, DISLIKE)| == 0 && |CommentsOn(t.comments, n)| == 0;
  }

  /** The transaction reads the comment first and does not check that its own delete removed a row. When another
      delete of the same comment commits in between, the count stays right exactly if it has nothing left to lose. */
  lemma LateDeleteKeepsIff(t: Tables, id: nat, v: nat)
    requires Consistent(t) && (id in t.comments ==> t.comments[id].videoID == v)
    ensures Consistent(UncommentedAs(t, id, v)) <==>
      id in t.comments || v !in t.videos || CommentsOn(t.comments, v) == {}
  {
    var u := UncommentedAs(t, id, v);
    if id in t.comments {
      UncommentedKeeps(t, id);
    } else {
      assert u.comments == t.comments;
      assert v in t.videos ==> CountsMatch(t, v);
      if v !in t.videos || CommentsOn(t.comments, v) == {} {
        assert u.videos == t.videos;
      } else {
        assert !CountsMatch(u, v);
      }
    }
  }

  predicate IsVote(status: int) {
    status == LIKE || status == DISLIKE || status == NONE
  }

  /** Some row was read, it said something else, and another vote of the account has committed since. */
  predicate ReadIsLate(t: Tables, v: nat, a: nat, status: int, read: Option<int>) {
    read.Some? && read.value != status && read != Row(t, v, a)
  }

  /** The vote rows after the writes of such a transaction. */
  lemma VotesAfterAs(t: Tables, v: nat, a: nat, status: int, read: Option<int>, w: nat, s: int)
    requires s != NONE && ReadIsLate(t, v, a, status, read) && !RatingAborts(t, v, a, status, read)
    ensures var after := if Row(t, v, a) == None then NONE else status;
      |Votes(RatedAs(t, v, a, status, read).ratings, w, s)| == |Votes(t.ratings, w, s)| + if w != v then 0
        else (if after == s then 1 else 0) - (if StatusOf(t, v, a) == s then 1 else 0)
  {
    VotesStored(t.ratings, (v, a), status, w, s);
    VotesDropped(t.ratings, (v, a), w, s);
  }

  /** When another vote of the same account on the same video commits between the read and the write, counts stay
      right exactly if nothing follows from what was read, the insert fails, the video is gone, or no vote of the
      kind that was read is left to be uncounted: then the count would fall below zero and the transaction aborts. */
  lemma LateVoteKeepsIff(t: Tables, v: nat, a: nat, status: int, read: Option<int>)
    requires Consistent(t) && v < t.nextVideo && IsVote(status) && IsVote(StatusOf(t, v, a))
    requires read.Some? ==> read.value == LIKE || read.value == DISLIKE
    ensures Consistent(RatedAs(t, v, a, status, read)) <==>
      !ReadIsLate(t, v, a, status, read) || v !in t.videos || Votes(t.ratings, v, read.value) == {}
  {
    if !ReadIsLate(t, v, a, status, read) {
      RatedKeeps(t, v, a, status);
    } else {
      LateVoteAborts(t, v, a, status, read);
      if !RatingAborts(t, v, a, status, read) {
        LateVoteElsewhere(t, v, a, status, read);
        if v in t.videos { LateVoteCounts(t, v, a, status, read); }
      }
    }
  }

  lemma LateVoteAborts(t: Tables, v: nat, a: nat, status: int, read: Option<int>)
    requires Consistent(t) && IsVote(status) && ReadIsLate(t, v, a, status, read)
    requires read.value == LIKE || read.value == DISLIKE
    ensures RatingAborts(t, v, a, status, read) <==> v in t.videos && Votes(t.ratings, v, read.value) == {}
  {
    if v in t.videos {
      assert CountsMatch(t, v);
      assert Votes(t.ratings, v, read.value) == {} <==> |Votes(t.ratings, v, read.value)| == 0;
    }
  }

  lemma LateVoteElsewhere(t: Tables, v: nat, a: nat, status: int, read: Option<int>)
    requires Consistent(t) && v < t.nextVideo && ReadIsLate(t, v, a, status, read)
    requires !RatingAborts(t, v, a, status, read)
    ensures var u := RatedAs(t, v, a, status, read);
      Consistent(u) <==> v in t.videos ==> CountsMatch(u, v)
  {
    forall w | w in t.videos && w != v ensures CountsMatch(RatedAs(t, v, a, status, read), w) {
      assert CountsMatch(t, w);
      LateVoteLeaves(t, v, a, status, read, w);
    }
  }

  lemma LateVoteLeaves(t: Tables, v: nat, a: nat, status: int, read: Option<int>, w: nat)
    requires w in t.videos && w != v && CountsMatch(t, w)
    requires ReadIsLate(t, v, a, status, read) && !RatingAborts(t, v, a, status, read)
    ensures CountsMatch(RatedAs(t, v, a, status, read), w)
  {
    VotesAfterAs(t, v, a, status, read, w, LIKE);
    VotesAfterAs(t, v, a, status, read, w, DISLIKE);
  }

  lemma LateVoteCounts(t: Tables, v: nat, a: nat, status: int, read: Option<int>)
    requires Consistent(t) && v in t.videos && IsVote(status) && IsVote(StatusOf(t, v, a))
    requires ReadIsLate(t, v, a, status, read) && (read.value == LIKE || read.value == DISLIKE)
    requires !RatingAborts(t, v, a, status, read)
    ensures !CountsMatch(RatedAs(t, v, a, status, read), v)
  {
    assert CountsMatch(t, v);
    VotesAfterAs(t, v, a, status, read, v, LIKE);
    VotesAfterAs(t, v, a, status, read, v, DISLIKE);
  }

  lemma {:induction false} RunSnoc(steps: seq<Step>, step: Step)
    ensures RunAll(steps + [step]) == Next(RunAll(steps), step)
    ensures AllEnabled(steps + [step]) <==> AllEnabled(steps) && Enabled(RunAll(steps), step)
  {
    assert (steps + [step])[..|steps|] == steps;
  }

  lemma RunFour(a: Step, b: Step, c: Step, d: Step)
    ensures RunAll([a] + [b] + [c] + [d]) == Next(Next(Next(Next(RunAll([]), a), b), c), d)
  {
    RunSnoc([], a);
    assert [] + [a] == [a];
    RunSnoc([a], b);
    RunSnoc([a] + [b], c);
    RunSnoc([a] + [b] + [c], d);
  }

  const ONE_LIKE := Tables(map[1 := Counts(1, 0, 0)], map[(1, 8) := LIKE], map[], 2, 1)

  /** Two accounts like a video and one takes its like back. */
  lemma OneLikeIsReached()
    ensures RunAll([CreateVideo] + [Rate(1, 7, LIKE)] + [Rate(1, 8, LIKE)] + [Rate(1, 7, NONE)]) == ONE_LIKE
  {
    RunFour(CreateVideo, Rate(1, 7, LIKE), Rate(1, 8, LIKE), Rate(1, 7, NONE));
    var both := map[(1 as nat, 7 as nat) := LIKE][(1, 8) := LIKE];
    assert both - {(1, 7)} == map[(1, 8) := LIKE];
  }

  /** Then the late half of a second withdrawal uncounts the like that is left. */
  lemma DoubleWithdrawalMiscounts()
    ensures var u := RatedAs(ONE_LIKE, 1, 7, NONE, Some(LIKE));
      u.videos[1].liked == 0 && u.ratings == ONE_LIKE.ratings && Votes(u.ratings, 1, LIKE) == {(1, 8)}
  {
    assert ONE_LIKE.ratings - {(1, 7)} == ONE_LIKE.ratings;
    assert (1, 8) in Votes(ONE_LIKE.ratings, 1, LIKE);
  }

  const FIRST := Comment("a", 1, 9, 7, "one")
  const SECOND := Comment("b", 1, 9, 8, "two")
  const ONE_COMMENT := Tables(map[1 := Counts(0, 0, 1)], map[], map[2 := SECOND], 2, 3)

  /** A video receives two comments and one is deleted. */
  lemma OneCommentIsReached()
    ensures RunAll([CreateVideo] + [AddComment(FIRST)] + [AddComment(SECOND)] + [RemoveComment(1)]) == ONE_COMMENT
  {
    RunFour(CreateVideo, AddComment(FIRST), AddComment(SECOND), RemoveComment(1));
    var one := Next(Next(RunAll([]), CreateVideo), AddComment(FIRST));
    assert one == Tables(map[1 := Counts(0, 0, 1)], map[], map[1 := FIRST], 2, 2);
    assert !Seen(one, "b");
    var two := Next(one, AddComment(SECOND));
    assert two.comments - {1} == map[2 := SECOND];
  }

  /** Then the late half of a second deletion of the same comment uncounts the one that is left. */
  lemma DoubleDeletionMiscounts()
    ensures var u := UncommentedAs(ONE_COMMENT, 1, 1);
      u.videos[1].comments == 0 && u.comments == ONE_COMMENT.comments && CommentsOn(u.comments, 1) == {2}
  {
    assert ONE_COMMENT.comments - {1} == ONE_COMMENT.comments;
    assert 2 in CommentsOn(ONE_COMMENT.comments, 1);
  }

  /** A like for an id not yet handed out is stored; the video that gets the id then shows no likes, and the like
      cannot be taken back: uncounting it would fall below zero. */
  lemma EarlyLikeIsLost()
    ensures var t := RunAll([Rate(1, 7, LIKE), CreateVideo]);
      && 1 in t.videos && t.videos[1].liked == 0 && Votes(t.ratings, 1, LIKE) == {(1, 7)}
      && RatingAborts(t, 1, 7, NONE, Row(t, 1, 7))
  {
    var steps := [Rate(1, 7, LIKE), CreateVideo];
    assert steps[..1] == [Rate(1, 7, LIKE)];
    assert steps[..1][..0] == [];
    var early := Rated(RunAll([]), 1, 7, LIKE);
    assert RunAll(steps[..1]) == early;
    assert RunAll(steps) == VideoCreated(early);
    assert (1, 7) in early.ratings;
  }
}
