/** One account's ratings, cached as two Redis sets in front of the ratings table. The cache is
    written first and the table catches up through a queue; empty sets disappear and are refilled.
    Whatever fails on the way to the table, the cache has already answered. */
module RatingCache {
  import opened Sequences

  const LIKE: int := 1
  const DISLIKE: int := -1
  const NONE: int := 0

  /** A publish may fail, reach the queue although its acknowledgement is lost, or be released by the broker:
      then it reached no queue, yet no error is returned. */
  datatype Publish = Refused | LostAck | Accepted | Released

  /** A vote on its way to the table. */
  datatype Vote = Vote(video: nat, status: int)

  /** The table rows of the account, the votes in flight (oldest first), and the two cached sets. */
  datatype Account = Account(rows: map<nat, int>, pending: seq<Vote>, liked: set<nat>, disliked: set<nat>)

  function Stored(rows: map<nat, int>, v: Vote): map<nat, int> {
    if v.status == NONE then rows - {v.video} else rows[v.video := v.status]
  }

  /** The table once everything in flight has arrived. */
  function Settled(rows: map<nat, int>, pending: seq<Vote>): map<nat, int> {
    if pending == [] then rows else Stored(Settled(rows, pending[..|pending| - 1]), pending[|pending| - 1])
  }

  /** The last vote in flight on a video. */
  function LastVote(pending: seq<Vote>, video: nat): Option<int> {
    if pending == [] then None
    else
      var last := pending[|pending| - 1];
      if last.video == video then Some(last.status) else LastVote(pending[..|pending| - 1], video)
  }

  function Status(rows: map<nat, int>, video: nat): int {
    if video in rows then rows[video] else NONE
  }

  // ---- Commands -----------------------------------------------------------------------------

  function RowsOf(rows: map<nat, int>, status: int): set<nat> {
    set v | v in rows && rows[v] == status
  }

  /** SADD all rows of each kind, or the sentinel 0 when there are none. */
  function Warmed(s: Account): Account {
    var liked, disliked := RowsOf(s.rows, LIKE), RowsOf(s.rows, DISLIKE);
    s.(liked := s.liked + if liked == {} then {0} else liked,
       disliked := s.disliked + if disliked == {} then {0} else disliked)
  }

  function CacheUpdated(s: Account, video: nat, status: int): Account {
    if status == LIKE then s.(liked := s.liked + {video}, disliked := s.disliked - {video})
    else if status == DISLIKE then s.(liked := s.liked - {video}, disliked := s.disliked + {video})
    else s.(liked := s.liked - {video}, disliked := s.disliked - {video})
  }

  /** A set that is empty has no key. */
  function EnsuredCache(s: Account): Account {
    if s.liked == {} || s.disliked == {} then Warmed(s) else s
  }

  predicate Enqueues(p: Publish) {
    p.LostAck? || p.Accepted?
  }

  predicate ReportsError(p: Publish) {
    p.Refused? || p.LostAck?
  }

  /** Cache first, then the queue; when publishing reports an error, the table itself, whose write may fail too. */
  function UserRated(s: Account, video: nat, status: int, publish: Publish, stored: bool): Account {
    var u := CacheUpdated(s, video, status);
    u.(pending := if Enqueues(publish) then u.pending + [Vote(video, status)] else u.pending,
       rows := if ReportsError(publish) && stored then Stored(u.rows, Vote(video, status)) else u.rows)
  }

  /** The consumer stores a vote and settles it; a settlement that is lost leaves it to be delivered again. */
  function Delivered(s: Account, settled: bool): Account
    requires s.pending != []
  {
    s.(rows := Stored(s.rows, s.pending[0]), pending := if settled then s.pending[1..] else s.pending)
  }

  /** After three failed attempts the consumer settles a vote without storing it. */
  function Dropped(s: Account): Account
    requires s.pending != []
  {
    s.(pending := s.pending[1..])
  }

  /** The time to live of the keys is over, of one or of both: what they held is gone. */
  function Expired(s: Account, likedKey: bool, dislikedKey: bool): Account {
    s.(liked := if likedKey then {} else s.liked, disliked := if dislikedKey then {} else s.disliked)
  }

  function Cached(s: Account, video: nat): int {
    if video in s.liked then LIKE else if video in s.disliked then DISLIKE else NONE
  }

  /** Which of the outside calls of one cache read fail: the two key checks, the query, the two membership reads. */
  datatype ReadFaults =
    ReadFaults(likedKey: bool, dislikedKey: bool, query: bool, likedMembers: bool, dislikedMembers: bool)

  predicate CanEnsure(s: Account, f: ReadFaults) {
    !f.likedKey && !f.dislikedKey && (s.liked == {} || s.disliked == {} ==> !f.query)
  }

  // ---- The repository and the service above it ------------------------------------------------

  class Ratings {
    var state: Account

    constructor ()
      ensures state == Account(map[], [], {}, {})
    {
      state := Account(map[], [], {}, {});
    }

    /** `rows` is what the query returned, in any order; a failed query leaves the sets alone. */
    method WarmupRatingCache(rows: seq<Vote>, queryOK: bool) returns (ok: bool)
      requires forall v, s :: Vote(v, s) in rows <==> v in state.rows && state.rows[v] == s
      modifies this
      ensures ok == queryOK
      ensures state == if ok then Warmed(old(state)) else old(state)
    {
      if !queryOK {
        return false;
      }
      var liked: set<nat>, disliked: set<nat> := {}, {};
      for i := 0 to |rows|
        invariant forall v :: v in liked <==> Vote(v, LIKE) in rows[..i]
        invariant forall v :: v in disliked <==> Vote(v, DISLIKE) in rows[..i]
      {
        assert rows[..i + 1] == rows[..i] + [rows[i]];
        if rows[i].status == LIKE {
          liked := liked + {rows[i].video};
        }
        if rows[i].status == DISLIKE {
          disliked := disliked + {rows[i].video};
        }
      }
      assert rows[..|rows|] == rows;
      assert liked == RowsOf(state.rows, LIKE);
      assert disliked == RowsOf(state.rows, DISLIKE);
      if |liked| == 0 {
        liked := {0};
      }
      if |disliked| == 0 {
        disliked := {0};
      }
      state := state.(liked := state.liked + liked, disliked := state.disliked + disliked);
      return true;
    }

    /** Warms up when either set has no key; an error of either check or of the warm-up ends the call. */
    method EnsureRatingCache(rows: seq<Vote>, f: ReadFaults) returns (ok: bool)
      requires forall v, s :: Vote(v, s) in rows <==> v in state.rows && state.rows[v] == s
      modifies this
      ensures ok == (!f.likedKey && !f.dislikedKey &&
                     (old(state).liked == {} || old(state).disliked == {} ==> !f.query))
      ensures state == if ok then EnsuredCache(old(state)) else old(state)
    {
      if f.likedKey {
        return false;
      }
      if f.dislikedKey {
        return false;
      }
      if state.liked == {} || state.disliked == {} {
        ok := WarmupRatingCache(rows, !f.query);
        return;
      }
      return true;
    }

    /** The answer in the order asked, or an error: for an empty question, or when an outside call it needs fails. */
    method GetRatingCache(videos: seq<nat>, rows: seq<Vote>, f: ReadFaults) returns (result: Option<seq<int>>)
      requires forall v, s :: Vote(v, s) in rows <==> v in state.rows && state.rows[v] == s
      modifies this
      ensures result.Some? <==>
        && videos != [] && !f.likedKey && !f.dislikedKey && !f.likedMembers && !f.dislikedMembers
        && (old(state).liked == {} || old(state).disliked == {} ==> !f.query)
      ensures state == if videos != [] && CanEnsure(old(state), f) then EnsuredCache(old(state)) else old(state)
      ensures result.Some? ==> |result.value| == |videos|
      ensures result.Some? ==> forall i :: 0 <= i < |videos| ==> result.value[i] == Cached(state, videos[i])
    {
      if |videos| == 0 {
        return None;
      }
      var ok := EnsureRatingCache(rows, f);
      if !ok || f.likedMembers || f.dislikedMembers {
        return None;
      }
      var stats: seq<int> := [];
      for i := 0 to |videos|
        invariant |stats| == i
        invariant forall j :: 0 <= j < i ==> stats[j] == Cached(state, videos[j])
      {
        var stat := NONE;
        if videos[i] in state.liked {
          stat := LIKE;
        } else if videos[i] in state.disliked {
          stat := DISLIKE;
        }
        stats := stats + [stat];
      }
      return Some(stats);
    }

    /** Rejects an impossible video or vote; otherwise updates the cache and queues or stores the vote. A table
        write that fails is reported, but by then the cache has the vote. */
    method SetUserRating(account: nat, video: nat, status: int, publish: Publish, stored: bool) returns (ok: bool)
      modifies this
      ensures var valid := account != 0 && video != 0 && status in {LIKE, DISLIKE, NONE};
        && (ok <==> valid && (publish.Refused? || publish.LostAck? ==> stored))
        && state == if valid then UserRated(old(state), video, status, publish, stored) else old(state)
      ensures account != 0 && video != 0 && status in {LIKE, DISLIKE, NONE} ==>
        var vote := Vote(video, status);
        && state.pending == old(state).pending + (if publish.Accepted? || publish.LostAck? then [vote] else [])
        && state.rows == if (publish.Refused? || publish.LostAck?) && stored then Stored(old(state).rows, vote)
                         else old(state).rows
    {
      if account == 0 || video == 0 {
        return false;
      }
      if status != -1 && status != 0 && status != 1 {
        return false;
      }
      state := CacheUpdated(state, video, status);
      if publish.LostAck? || publish.Accepted? {
        state := state.(pending := state.pending + [Vote(video, status)]);
      }
      if publish.Accepted? || publish.Released? {
        return true;
      }
      if !stored {
        return false;
      }
      state := state.(rows := Stored(state.rows, Vote(video, status)));
      return true;
    }
  }

  // ---- Agreement --------------------------------------------------------------------------------

  /** The sets, less the sentinel, are the likes and dislikes of the settled table. */
  ghost predicate Agrees(s: Account) {
    var settled := Settled(s.rows, s.pending);
    && (forall v :: v in s.rows ==> v != 0 && s.rows[v] in {LIKE, DISLIKE})
    && (forall p :: p in s.pending ==> p.video != 0 && p.status in {LIKE, DISLIKE, NONE})
    && (forall v :: v != 0 ==> (v in s.liked <==> Status(settled, v) == LIKE))
    && (forall v :: v != 0 ==> (v in s.disliked <==> Status(settled, v) == DISLIKE))
  }

  lemma {:induction false} SettledStatus(rows: map<nat, int>, pending: seq<Vote>, video: nat)
    ensures Status(Settled(rows, pending), video) == match LastVote(pending, video)
      case None => Status(rows, video)
      case Some(status) => status
  {
    if pending != [] {
      SettledStatus(rows, pending[..|pending| - 1], video);
    }
  }

  /** Whether a vote may be stored now, past those in flight: none of them is on this video, or the last one says
      the same. */
  predicate MayOvertake(pending: seq<Vote>, video: nat, status: int) {
    LastVote(pending, video) in {None, Some(status)}
  }

  lemma {:induction false} LastVoteIn(pending: seq<Vote>, video: nat)
    ensures LastVote(pending, video).Some? ==> Vote(video, LastVote(pending, video).value) in pending
  {
    if pending != [] && pending[|pending| - 1].video != video {
      LastVoteIn(pending[..|pending| - 1], video);
    }
  }

  lemma LastVoteIsVote(s: Account, video: nat)
    requires Agrees(s)
    ensures LastVote(s.pending, video).Some? ==> LastVote(s.pending, video).value in {LIKE, DISLIKE, NONE}
  {
    LastVoteIn(s.pending, video);
  }

  /** What the table will say of a video once everything in flight has arrived. */
  function Coming(rows: map<nat, int>, pending: seq<Vote>, video: nat): int {
    match LastVote(pending, video) case None => Status(rows, video) case Some(status) => status
  }

  /** The table will come to say `status` of the video: a vote that is queued always prevails; one stored directly,
      unless an older one in flight overwrites it; one that got nowhere, if the table was going to say so anyway. */
  predicate Prevails(s: Account, video: nat, status: int, publish: Publish, stored: bool) {
    publish.Accepted? || publish.LostAck?
    || (publish.Refused? && stored && MayOvertake(s.pending, video, status))
    || Coming(s.rows, s.pending, video) == status
  }

  lemma SettledAfter(s: Account, video: nat, status: int, publish: Publish, stored: bool, v: nat)
    ensures var u := UserRated(s, video, status, publish, stored);
      Status(Settled(u.rows, u.pending), v) ==
        if v == video && Prevails(s, video, status, publish, stored) then status
        else Status(Settled(s.rows, s.pending), v)
  {
    var u := UserRated(s, video, status, publish, stored);
    SettledStatus(s.rows, s.pending, v);
    SettledStatus(u.rows, s.pending, v);
    if Enqueues(publish) {
      assert u.pending[..|u.pending| - 1] == s.pending;
    }
  }

  lemma PrevailingVoteAgrees(s: Account, video: nat, status: int, publish: Publish, stored: bool)
    requires Agrees(s) && video != 0 && status in {LIKE, DISLIKE, NONE} && Prevails(s, video, status, publish, stored)
    ensures Agrees(UserRated(s, video, status, publish, stored))
  {
    var u := UserRated(s, video, status, publish, stored);
    forall v | v != 0
      ensures (v in u.liked <==> Status(Settled(u.rows, u.pending), v) == LIKE)
        && (v in u.disliked <==> Status(Settled(u.rows, u.pending), v) == DISLIKE)
    {
      SettledAfter(s, video, status, publish, stored, v);
    }
  }

  lemma OtherVoteDisagrees(s: Account, video: nat, status: int, publish: Publish, stored: bool)
    requires Agrees(s) && video != 0 && status in {LIKE, DISLIKE, NONE} && !Prevails(s, video, status, publish, stored)
    ensures !Agrees(UserRated(s, video, status, publish, stored))
  {
    var u := UserRated(s, video, status, publish, stored);
    SettledAfter(s, video, status, publish, stored, video);
    SettledStatus(s.rows, s.pending, video);
    LastVoteIsVote(s, video);
    var settled := Status(Settled(u.rows, u.pending), video);
    assert settled != status && settled in {LIKE, DISLIKE, NONE};
  }

  /** A vote keeps cache and settled table in agreement exactly when it prevails. */
  lemma RatedAgreesIff(s: Account, video: nat, status: int, publish: Publish, stored: bool)
    requires Agrees(s) && video != 0 && status in {LIKE, DISLIKE, NONE}
    ensures Agrees(UserRated(s, video, status, publish, stored)) <==> Prevails(s, video, status, publish, stored)
  {
    if Prevails(s, video, status, publish, stored) {
      PrevailingVoteAgrees(s, video, status, publish, stored);
    } else {
      OtherVoteDisagrees(s, video, status, publish, stored);
    }
  }

  lemma DeliveryAgrees(s: Account, settled: bool)
    requires Agrees(s) && s.pending != []
    ensures Agrees(Delivered(s, settled))
  {
    var d := Delivered(s, settled);
    assert s.pending[0] in s.pending;
    forall v ensures Status(Settled(d.rows, d.pending), v) == Status(Settled(s.rows, s.pending), v) {
      SettledStatus(s.rows, s.pending, v);
      SettledStatus(d.rows, d.pending, v);
      FirstVote(s.pending, v);
    }
  }

  lemma {:induction false} FirstVote(pending: seq<Vote>, video: nat)
    requires pending != []
    ensures LastVote(pending, video) == match LastVote(pending[1..], video)
      case Some(status) => Some(status)
      case None => if pending[0].video == video then Some(pending[0].status) else None
  {
    var n := |pending| - 1;
    if n > 0 {
      FirstVote(pending[..n], video);
      assert pending[..n][1..] == pending[1..][..n - 1];
    }
  }

  /** The queue is worked off, every settlement arriving. */
  function DeliveredAll(s: Account): Account
    decreases |s.pending|
  {
    if s.pending == [] then s else DeliveredAll(Delivered(s, true))
  }

  lemma SettledFirst(rows: map<nat, int>, pending: seq<Vote>)
    requires pending != []
    ensures Settled(rows, pending) == Settled(Stored(rows, pending[0]), pending[1..])
  {
    var n := |pending| - 1;
    if n > 0 {
      SettledFirst(rows, pending[..n]);
      assert pending[..n][1..] == pending[1..][..n - 1];
    }
  }

  /** As many deliveries as there are votes in flight empty the queue, and leave in the table what each video's last
      queued vote says, or else what it said before. */
  lemma {:induction false} DeliveryStores(s: Account, v: nat)
    ensures var d := DeliveredAll(s);
      && d.pending == [] && d.liked == s.liked && d.disliked == s.disliked
      && d.rows == Settled(s.rows, s.pending)
      && Status(d.rows, v) == Coming(s.rows, s.pending, v)
    decreases |s.pending|
  {
    SettledStatus(s.rows, s.pending, v);
    if s.pending != [] {
      SettledFirst(s.rows, s.pending);
      DeliveryStores(Delivered(s, true), v);
    }
  }

  /** Dropping a vote keeps agreement exactly when a later vote on the same video is in flight, or the table says
      so already. */
  lemma DropAgreesIff(s: Account)
    requires Agrees(s) && s.pending != []
    ensures Agrees(Dropped(s)) <==>
      LastVote(s.pending[1..], s.pending[0].video).Some? || Status(s.rows, s.pending[0].video) == s.pending[0].status
  {
    var d, first := Dropped(s), s.pending[0];
    assert first in s.pending && first.video != 0;
    assert forall p :: p in d.pending ==> p in s.pending;
    forall v
      ensures v != first.video ==> Status(Settled(d.rows, d.pending), v) == Status(Settled(s.rows, s.pending), v)
    {
      SettledStatus(s.rows, s.pending, v);
      SettledStatus(d.rows, d.pending, v);
      FirstVote(s.pending, v);
    }
    SettledStatus(s.rows, s.pending, first.video);
    SettledStatus(d.rows, d.pending, first.video);
    FirstVote(s.pending, first.video);
    assert Status(s.rows, first.video) in {LIKE, DISLIKE, NONE};
  }

  /** Nothing in flight would take a stored vote away or turn it round. */
  ghost predicate RowsStand(s: Account) {
    forall v :: v in s.rows ==> MayOvertake(s.pending, v, s.rows[v])
  }

  /** A warm-up adds every stored vote to the sets, so it is harmless exactly when the stored votes still stand.
      With nothing in flight they always do. */
  lemma WarmupAgreesIff(s: Account)
    requires Agrees(s)
    ensures Agrees(Warmed(s)) <==> RowsStand(s)
    ensures s.pending == [] ==> RowsStand(s)
  {
    var w := Warmed(s);
    forall v
      ensures v in s.rows ==>
        (MayOvertake(s.pending, v, s.rows[v]) <==> Status(Settled(s.rows, s.pending), v) == s.rows[v])
    {
      SettledStatus(s.rows, s.pending, v);
    }
    if !RowsStand(s) {
      var v :| v in s.rows && !MayOvertake(s.pending, v, s.rows[v]);
      if s.rows[v] == LIKE {
        assert v in w.liked;
      } else {
        assert v in w.disliked;
      }
    }
  }

  // ---- Keys that expire -----------------------------------------------------------------------

  /** A vote that goes with the expired keys. */
  predicate Forgotten(s: Account, likedKey: bool, dislikedKey: bool, video: nat) {
    (likedKey && video in s.liked) || (dislikedKey && video in s.disliked)
  }

  /** Votes made one after the other and all queued. */
  function VotedAll(s: Account, votes: seq<Vote>): Account {
    if votes == [] then s
    else
      var last := votes[|votes| - 1];
      UserRated(VotedAll(s, votes[..|votes| - 1]), last.video, last.status, Accepted, true)
  }

  predicate AreVotes(votes: seq<Vote>) {
    forall p :: p in votes ==> p.video != 0 && p.status in {LIKE, DISLIKE, NONE}
  }

  lemma {:induction false} VotesShow(s: Account, votes: seq<Vote>, v: nat)
    ensures var t, last := VotedAll(s, votes), LastVote(votes, v);
      && t.rows == s.rows && t.pending == s.pending + votes
      && (v in t.liked <==> if last.Some? then last.value == LIKE else v in s.liked)
      && (v in t.disliked <==> if last.Some? then last.value == DISLIKE else v in s.disliked)
  {
    if votes != [] {
      var n := |votes| - 1;
      VotesShow(s, votes[..n], v);
      assert votes == votes[..n] + [Vote(votes[n].video, votes[n].status)];
    }
  }

  lemma {:induction false} LastVoteOfBoth(first: seq<Vote>, second: seq<Vote>, v: nat)
    ensures LastVote(first + second, v) == if LastVote(second, v).Some? then LastVote(second, v) else LastVote(first, v)
  {
    if second == [] {
      assert first + second == first;
    } else {
      var n := |second| - 1;
      LastVoteOfBoth(first, second[..n], v);
      assert (first + second)[..|first| + n] == first + second[..n];
    }
  }

  /** What the cache and the settled table say of a video when keys expired before these votes. */
  lemma VotedVideo(s: Account, likedKey: bool, dislikedKey: bool, votes: seq<Vote>, v: nat)
    requires Agrees(s) && v != 0
    ensures var t := VotedAll(Expired(s, likedKey, dislikedKey), votes);
      var gone := LastVote(votes, v).None? && Forgotten(s, likedKey, dislikedKey, v);
      var coming := Coming(t.rows, t.pending, v);
      && t.rows == s.rows && t.pending == s.pending + votes
      && Status(Settled(t.rows, t.pending), v) == coming
      && (v in t.liked <==> coming == LIKE && !gone) && (v in t.disliked <==> coming == DISLIKE && !gone)
      && (gone ==> coming in {LIKE, DISLIKE})
  {
    var e := Expired(s, likedKey, dislikedKey);
    var t := VotedAll(e, votes);
    VotesShow(e, votes, v);
    LastVoteOfBoth(s.pending, votes, v);
    SettledStatus(s.rows, s.pending, v);
    SettledStatus(t.rows, t.pending, v);
  }

  /** When keys expire and votes follow, cache and settled table agree exactly when each forgotten vote was
      followed by another on its video. Without votes that means: nothing was forgotten. */
  lemma ExpiryAgreesIff(s: Account, likedKey: bool, dislikedKey: bool, votes: seq<Vote>)
    requires Agrees(s) && AreVotes(votes)
    ensures Agrees(VotedAll(Expired(s, likedKey, dislikedKey), votes)) <==>
      forall v :: v != 0 && Forgotten(s, likedKey, dislikedKey, v) ==> LastVote(votes, v).Some?
  {
    var t := VotedAll(Expired(s, likedKey, dislikedKey), votes);
    VotesShow(Expired(s, likedKey, dislikedKey), votes, 0);
    forall v | v != 0 { VotedVideo(s, likedKey, dislikedKey, votes, v); }
  }

  /** Each forgotten vote that no other followed is stored. */
  ghost predicate IsStored(s: Account, likedKey: bool, dislikedKey: bool, votes: seq<Vote>) {
    forall v :: v != 0 && Forgotten(s, likedKey, dislikedKey, v) && LastVote(votes, v).None? ==> v in s.rows
  }

  lemma RefillAgrees(s: Account, likedKey: bool, dislikedKey: bool, votes: seq<Vote>)
    requires Agrees(s) && AreVotes(votes) && IsStored(s, likedKey, dislikedKey, votes)
    requires RowsStand(VotedAll(Expired(s, likedKey, dislikedKey), votes))
    ensures Agrees(Warmed(VotedAll(Expired(s, likedKey, dislikedKey), votes)))
  {
    var t := VotedAll(Expired(s, likedKey, dislikedKey), votes);
    var w := Warmed(t);
    VotesShow(Expired(s, likedKey, dislikedKey), votes, 0);
    forall v | v != 0
      ensures (v in w.liked <==> Status(Settled(t.rows, t.pending), v) == LIKE)
        && (v in w.disliked <==> Status(Settled(t.rows, t.pending), v) == DISLIKE)
    {
      VotedVideo(s, likedKey, dislikedKey, votes, v);
      assert v in t.rows ==> MayOvertake(t.pending, v, t.rows[v]);
    }
  }

  lemma WarmedVideo(t: Account, v: nat)
    requires Agrees(Warmed(t)) && v != 0
    ensures v in t.liked || Status(t.rows, v) == LIKE <==> Status(Settled(t.rows, t.pending), v) == LIKE
    ensures v in t.disliked || Status(t.rows, v) == DISLIKE <==> Status(Settled(t.rows, t.pending), v) == DISLIKE
    ensures v in t.rows ==> t.rows[v] in {LIKE, DISLIKE}
  {
    var w := Warmed(t);
    assert v in w.liked <==> v in t.liked || Status(t.rows, v) == LIKE;
    assert v in w.disliked <==> v in t.disliked || Status(t.rows, v) == DISLIKE;
  }

  lemma RefillStands(t: Account, v: nat)
    requires Agrees(Warmed(t)) && v in t.rows && v != 0
    ensures MayOvertake(t.pending, v, t.rows[v])
  {
    WarmedVideo(t, v);
    SettledStatus(t.rows, t.pending, v);
  }

  lemma RefillStores(s: Account, likedKey: bool, dislikedKey: bool, votes: seq<Vote>, t: Account, v: nat)
    requires Agrees(s) && t == VotedAll(Expired(s, likedKey, dislikedKey), votes) && Agrees(Warmed(t))
    requires v != 0 && Forgotten(s, likedKey, dislikedKey, v) && LastVote(votes, v).None?
    ensures v in s.rows
  {
    VotedVideo(s, likedKey, dislikedKey, votes, v);
    WarmedVideo(t, v);
  }

  /** The next warm-up, by a read that finds a key missing or at login, makes up for it exactly when the stored
      votes stand and each forgotten vote that no other followed is stored. */
  lemma RefillAgreesIff(s: Account, likedKey: bool, dislikedKey: bool, votes: seq<Vote>)
    requires Agrees(s) && AreVotes(votes)
    ensures var t := VotedAll(Expired(s, likedKey, dislikedKey), votes);
      Agrees(Warmed(t)) <==> RowsStand(t) && IsStored(s, likedKey, dislikedKey, votes)
  {
    var t := VotedAll(Expired(s, likedKey, dislikedKey), votes);
    if RowsStand(t) && IsStored(s, likedKey, dislikedKey, votes) {
      RefillAgrees(s, likedKey, dislikedKey, votes);
    }
    if Agrees(Warmed(t)) {
      assert 0 !in t.rows;
      forall v | v in t.rows { RefillStands(t, v); }
      forall v | v != 0 && Forgotten(s, likedKey, dislikedKey, v) && LastVote(votes, v).None? {
        RefillStores(s, likedKey, dislikedKey, votes, t, v);
      }
    }
  }

  /** A warm-up leaves both keys, so that the next read needs no other. */
  lemma WarmupMakesKeys(s: Account)
    ensures Warmed(s).liked != {} && Warmed(s).disliked != {} && EnsuredCache(Warmed(s)) == Warmed(s)
  {}

  /** With agreement and nothing in flight, the cache answers every list of videos as the table would. */
  lemma CacheAnswersAsTable(s: Account, videos: seq<nat>)
    requires Agrees(s) && s.pending == [] && 0 !in videos
    ensures Agrees(EnsuredCache(s))
    ensures forall i :: 0 <= i < |videos| ==> Cached(EnsuredCache(s), videos[i]) == Status(s.rows, videos[i])
    ensures forall v :: v != 0 ==> !(v in s.liked && v in s.disliked)
  {}

  /** Video 0 does not exist, but a warm-up makes the cache claim to like it exactly when there is
      nothing else to like, or it did so before. */
  lemma SentinelIsLiked(s: Account)
    requires Agrees(s)
    ensures Status(s.rows, 0) == NONE
    ensures Cached(Warmed(s), 0) == LIKE <==> 0 in s.liked || forall v :: v in s.rows ==> s.rows[v] != LIKE
  {
    if RowsOf(s.rows, LIKE) == {} {
      assert forall v :: v in s.rows ==> v !in RowsOf(s.rows, LIKE);
    } else {
      var v :| v in RowsOf(s.rows, LIKE);
      assert s.rows[v] == LIKE;
    }
  }

  datatype Step =
    | Rate(video: nat, status: int, publish: Publish, stored: bool)
    | Deliver(settled: bool)
    | Drop
    | Read
    | Login
    | Expire(likedKey: bool, dislikedKey: bool)

  /** The steps that keep agreement: a vote that prevails, a drop of one that something later overrides or the
      table has already, a warm-up, by a read or at login, that finds the stored votes standing, and an expiry
      that takes nothing but the sentinel. */
  ghost predicate Harmless(s: Account, step: Step) {
    match step
    case Rate(video, status, publish, stored) => Prevails(s, video, status, publish, stored)
    case Deliver(_) => true
    case Drop =>
      s.pending != [] &&
      (LastVote(s.pending[1..], s.pending[0].video).Some? || Status(s.rows, s.pending[0].video) == s.pending[0].status)
    case Read => s.liked == {} || s.disliked == {} ==> RowsStand(s)
    case Login => RowsStand(s)
    case Expire(likedKey, dislikedKey) => forall v :: v != 0 ==> !Forgotten(s, likedKey, dislikedKey, v)
  }

  predicate Enabled(s: Account, step: Step) {
    match step
    case Rate(video, status, _, _) => video != 0 && status in {LIKE, DISLIKE, NONE}
    case Deliver(_) => s.pending != []
    case Drop => s.pending != []
    case _ => true
  }

  function Next(s: Account, step: Step): Account
    requires Enabled(s, step)
  {
    match step
    case Rate(video, status, publish, stored) => UserRated(s, video, status, publish, stored)
    case Deliver(settled) => Delivered(s, settled)
    case Drop => Dropped(s)
    case Read => EnsuredCache(s)
    case Login => Warmed(s)
    case Expire(likedKey, dislikedKey) => Expired(s, likedKey, dislikedKey)
  }

  ghost predicate IsRun(states: seq<Account>, steps: seq<Step>) {
    && |states| == |steps| + 1
    && forall i :: 0 <= i < |steps| ==> Enabled(states[i], steps[i]) && states[i + 1] == Next(states[i], steps[i])
  }

  /** From agreement, a step leads to agreement exactly when it is harmless. */
  lemma StepAgreesIff(s: Account, step: Step)
    requires Agrees(s) && Enabled(s, step)
    ensures Agrees(Next(s, step)) <==> Harmless(s, step)
  {
    match step
    case Rate(video, status, publish, stored) => RatedAgreesIff(s, video, status, publish, stored);
    case Deliver(settled) => DeliveryAgrees(s, settled);
    case Drop => DropAgreesIff(s);
    case Read => WarmupAgreesIff(s);
    case Login => WarmupAgreesIff(s);
    case Expire(likedKey, dislikedKey) => ExpiryAgreesIff(s, likedKey, dislikedKey, []);
  }

  /** A run agrees throughout exactly when every one of its steps is harmless. */
  lemma {:induction false} RunAgreesIff(states: seq<Account>, steps: seq<Step>)
    requires IsRun(states, steps) && Agrees(states[0])
    ensures (forall i :: 0 <= i < |states| ==> Agrees(states[i])) <==>
      (forall i :: 0 <= i < |steps| ==> Harmless(states[i], steps[i]))
    decreases |steps|
  {
    if steps != [] {
      var n := |steps| - 1;
      RunAgreesIff(states[..n + 1], steps[..n]);
      assert states[n + 1] == Next(states[n], steps[n]);
      if Agrees(states[n]) { StepAgreesIff(states[n], steps[n]); }
      assert forall i :: 0 <= i < n ==> steps[..n][i] == steps[i];
      assert forall i :: 0 <= i < n + 1 ==> states[..n + 1][i] == states[i];
    }
  }

  function Queued(s: Account, vote: Vote): Account {
    s.(pending := s.pending + [vote])
  }

  /** What happens between the cache write of a vote and its publish might as well have happened after it: a read,
      a login or an expiry always, the delivery or drop of an older vote too. */
  lemma PublishMayWait(s: Account, video: nat, status: int, stored: bool, step: Step)
    requires step.Read? || step.Login? || step.Expire? || ((step.Deliver? || step.Drop?) && s.pending != [])
    ensures var u, vote := CacheUpdated(s, video, status), Vote(video, status);
      && UserRated(s, video, status, Accepted, stored) == Queued(u, vote)
      && Next(Queued(u, vote), step) == Queued(Next(u, step), vote)
  {
    if s.pending != [] {
      assert (s.pending + [Vote(video, status)])[1..] == s.pending[1..] + [Vote(video, status)];
    }
  }

  lemma StoredVideo(s: Account, video: nat, status: int, v: nat)
    requires MayOvertake(s.pending, video, status)
    ensures var rows := Stored(s.rows, Vote(video, status));
      Status(Settled(rows, s.pending), v) == if v == video then status else Coming(s.rows, s.pending, v)
  {
    SettledStatus(Stored(s.rows, Vote(video, status)), s.pending, v);
  }

  /** The old row of the video says what the vote says, if it is there, and the other rows stand. */
  ghost predicate OldRowsStand(s: Account, video: nat, status: int) {
    forall v :: v in s.rows ==> if v == video then s.rows[v] == status else MayOvertake(s.pending, v, s.rows[v])
  }

  /** A login between the cache write of a vote and the table write that follows a failed publish. */
  function LoginBetween(s: Account, video: nat, status: int): Account {
    var w := Warmed(CacheUpdated(s, video, status));
    w.(rows := Stored(w.rows, Vote(video, status)))
  }

  lemma LoginBetweenAgrees(s: Account, video: nat, status: int)
    requires Agrees(s) && video != 0 && status in {LIKE, DISLIKE, NONE} && MayOvertake(s.pending, video, status)
    requires OldRowsStand(s, video, status)
    ensures Agrees(LoginBetween(s, video, status))
  {
    var t := LoginBetween(s, video, status);
    forall v | v != 0
      ensures (v in t.liked <==> Status(Settled(t.rows, t.pending), v) == LIKE)
        && (v in t.disliked <==> Status(Settled(t.rows, t.pending), v) == DISLIKE)
    {
      StoredVideo(s, video, status, v);
      SettledStatus(s.rows, s.pending, v);
    }
  }

  lemma LoginBetweenStands(s: Account, video: nat, status: int, v: nat)
    requires Agrees(s) && video != 0 && status in {LIKE, DISLIKE, NONE} && MayOvertake(s.pending, video, status)
    requires Agrees(LoginBetween(s, video, status)) && v in s.rows
    ensures if v == video then s.rows[v] == status else MayOvertake(s.pending, v, s.rows[v])
  {
    var t := LoginBetween(s, video, status);
    StoredVideo(s, video, status, v);
    assert s.rows[v] == LIKE ==> v in t.liked;
    assert s.rows[v] == DISLIKE ==> v in t.disliked;
  }

  /** Not so for the table write after a failed publish: a login before it still reads the old row. It is
      harmless exactly when that row is missing or says the same, and the other rows stand. */
  lemma LoginBetweenAgreesIff(s: Account, video: nat, status: int)
    requires Agrees(s) && video != 0 && status in {LIKE, DISLIKE, NONE} && MayOvertake(s.pending, video, status)
    ensures Agrees(LoginBetween(s, video, status)) <==> OldRowsStand(s, video, status)
  {
    if OldRowsStand(s, video, status) {
      LoginBetweenAgrees(s, video, status);
    }
    if Agrees(LoginBetween(s, video, status)) {
      forall v | v in s.rows
        ensures if v == video then s.rows[v] == status else MayOvertake(s.pending, v, s.rows[v])
      {
        LoginBetweenStands(s, video, status, v);
      }
    }
  }

  predicate HasBothKeys(s: Account) {
    s.liked != {} && s.disliked != {}
  }

  /** As long as both keys are there, only a login or a vote on the video itself changes what is read of it. */
  lemma {:induction false} OnlyLoginRefills(states: seq<Account>, steps: seq<Step>, v: nat)
    requires IsRun(states, steps) && forall i :: 0 <= i < |states| ==> HasBothKeys(states[i])
    requires Login !in steps && forall step :: step in steps && step.Rate? ==> step.video != v
    ensures Cached(states[|steps|], v) == Cached(states[0], v)
    decreases |steps|
  {
    if steps != [] {
      var n := |steps| - 1;
      OnlyLoginRefills(states[..n + 1], steps[..n], v);
      assert steps[n] in steps && HasBothKeys(states[n + 1]);
    }
  }

  /** A first warm-up of an account establishes agreement. */
  lemma FirstWarmupAgrees(rows: map<nat, int>)
    requires forall v :: v in rows ==> v != 0 && rows[v] in {LIKE, DISLIKE}
    ensures Agrees(Warmed(Account(rows, [], {}, {})))
  {}

  /** Taking back the only like empties the set; a read before the table has caught up then refills it from
      the old row, and the like stays in the cache after the table has dropped it. */
  lemma UndoneLikeCanReturn()
    ensures var s := Warmed(Account(map[5 := LIKE], [], {}, {}));
      var undone := UserRated(s, 5, NONE, Accepted, true);
      var read := EnsuredCache(undone);
      var final := Delivered(read, true);
      && Agrees(s) && Agrees(undone) && !RowsStand(undone)
      && Status(final.rows, 5) == NONE && Cached(EnsuredCache(final), 5) == LIKE
  {
    var s := Warmed(Account(map[5 := LIKE], [], {}, {}));
    FirstWarmupAgrees(map[5 := LIKE]);
    assert RowsOf(map[5 := LIKE], LIKE) == {5};
    RatedAgreesIff(s, 5, NONE, Accepted, true);
    var undone := UserRated(s, 5, NONE, Accepted, true);
    assert LastVote(undone.pending, 5) == Some(NONE);
    assert s.liked == {5};
    assert 5 in undone.rows;
  }

  /** Publishing and the table write both fail: the caller is told so, but the cache shows the like. */
  lemma FailedLikeStays()
    ensures var s := Account(map[], [], {}, {});
      var u := UserRated(s, 5, LIKE, Refused, false);
      Agrees(s) && !Agrees(u) && Cached(u, 5) == LIKE && u.rows == map[] && u.pending == []
  {
    RatedAgreesIff(Account(map[], [], {}, {}), 5, LIKE, Refused, false);
  }

  /** A like is queued and then taken back; the withdrawal goes straight to the table, where the older like
      overwrites it. */
  lemma OvertakenWithdrawalIsUndone()
    ensures var s := UserRated(Account(map[], [], {}, {}), 5, LIKE, Accepted, true);
      var undone := UserRated(s, 5, NONE, Refused, true);
      var final := Delivered(undone, true);
      Agrees(s) && !Agrees(undone) && Status(final.rows, 5) == LIKE && Cached(final, 5) == NONE
  {
    var s := UserRated(Account(map[], [], {}, {}), 5, LIKE, Accepted, true);
    RatedAgreesIff(Account(map[], [], {}, {}), 5, LIKE, Accepted, true);
    assert s.pending == [Vote(5, LIKE)];
    assert LastVote(s.pending, 5) == Some(LIKE);
    RatedAgreesIff(s, 5, NONE, Refused, true);
  }

  /** A queued like that the consumer drops is never stored, but the cache keeps it. */
  lemma DroppedLikeStays()
    ensures var s := UserRated(Account(map[], [], {}, {}), 5, LIKE, Accepted, true);
      Agrees(s) && !Agrees(Dropped(s)) && Cached(Dropped(s), 5) == LIKE && Dropped(s).rows == map[]
  {
    var s := UserRated(Account(map[], [], {}, {}), 5, LIKE, Accepted, true);
    RatedAgreesIff(Account(map[], [], {}, {}), 5, LIKE, Accepted, true);
    assert s.pending == [Vote(5, LIKE)] && s.pending[1..] == [];
    DropAgreesIff(s);
  }

  lemma KeysComeBack()
    ensures var s := Warmed(Account(map[1 := LIKE], [], {}, {}));
      UserRated(UserRated(Expired(s, true, true), 5, LIKE, Accepted, true), 6, DISLIKE, Accepted, true) ==
        Account(map[1 := LIKE], [Vote(5, LIKE), Vote(6, DISLIKE)], {5}, {6})
  {}

  /** Both keys of an account that likes video 1 expire; a like and a dislike of other videos bring them back
      without it. Both keys being there, no read warms up: the stored like is not seen. */
  lemma ExpiredLikeIsLost()
    ensures var s := Warmed(Account(map[1 := LIKE], [], {}, {}));
      var voted := UserRated(UserRated(Expired(s, true, true), 5, LIKE, Accepted, true), 6, DISLIKE, Accepted, true);
      && Agrees(s) && !Agrees(voted) && |voted.pending| == 2
      && var final := Delivered(Delivered(voted, true), true);
      && HasBothKeys(final) && EnsuredCache(final) == final
      && final.pending == [] && Status(final.rows, 1) == LIKE && Cached(final, 1) == NONE
  {
    FirstWarmupAgrees(map[1 := LIKE]);
    var voted := Account(map[1 := LIKE], [Vote(5, LIKE), Vote(6, DISLIKE)], {5}, {6});
    KeysComeBack();
    assert voted.pending[..1] == [Vote(5, LIKE)] && LastVote([Vote(5, LIKE)], 1) == None;
    SettledStatus(voted.rows, voted.pending, 1);
  }
}
