/** Runs of the hot list: whatever the clients do and whichever commands fail, a ranking is exactly the
    sum of the changes logged in its sixty minutes, and pages followed from the first add up to it. */
module HotListRuns {
  import opened Sequences
  import opened SortedSets
  import opened Popularity

  /** A change that reached Redis. */
  datatype Change = Change(at: int, video: nat, delta: int)

  predicate During(c: Change, lo: int, hi: int) {
    lo <= c.at / 60_000 < hi
  }

  /** What a video gained in the minutes `lo` to `hi - 1`. */
  function Total(log: seq<Change>, v: nat, lo: int, hi: int): int {
    if log == [] then 0
    else
      var n := |log| - 1;
      Total(log[..n], v, lo, hi) + if During(log[n], lo, hi) && log[n].video == v then log[n].delta else 0
  }

  predicate Touched(log: seq<Change>, v: nat, lo: int, hi: int) {
    log != [] && (Touched(log[..|log| - 1], v, lo, hi) ||
                  (During(log[|log| - 1], lo, hi) && log[|log| - 1].video == v))
  }

  /** The ranking that one sorted set would hold had it received the changes of those minutes, in order. */
  function Ranking(log: seq<Change>, lo: int, hi: int): seq<ZMember> {
    if log == [] then []
    else
      var n := |log| - 1;
      if During(log[n], lo, hi) then Increased(Ranking(log[..n], lo, hi), log[n].video, log[n].delta)
      else Ranking(log[..n], lo, hi)
  }

  // ---- Scores ---------------------------------------------------------------------------------

  lemma {:induction false} ScoreIs(s: seq<ZMember>, v: nat)
    requires Ranked(s)
    ensures forall x :: x in s && x.member == v ==> ScoreOf(s, v) == x.score
    ensures HasMember(s, v) <==> ZMember(ScoreOf(s, v), v) in s
    ensures !HasMember(s, v) ==> ScoreOf(s, v) == 0
  {
    if s != [] {
      ScoreIs(s[1..], v);
      assert s == [s[0]] + s[1..];
    }
  }

  lemma IncreasedSpec(s: seq<ZMember>, v: nat, delta: int, u: nat)
    requires Ranked(s)
    ensures var r := Increased(s, v, delta);
      Ranked(r) && ScoreOf(r, u) == ScoreOf(s, u) + (if u == v then delta else 0)
      && (HasMember(r, u) <==> u == v || HasMember(s, u))
  {
    var e := ZMember(ScoreOf(s, v) + delta, v);
    AddSpec(s, e);
    ScoreIs(s, u);
    ScoreIs(Add(s, e), u);
    assert e in Add(s, e);
  }

  /** Every video's score is the sum of its changes, and the videos are those that changed. */
  ghost predicate Scores(s: seq<ZMember>, log: seq<Change>, lo: int, hi: int) {
    && Ranked(s)
    && (forall v: nat :: ScoreOf(s, v) == Total(log, v, lo, hi))
    && (forall v: nat :: HasMember(s, v) <==> Touched(log, v, lo, hi))
  }

  lemma {:induction false} RankingScores(log: seq<Change>, lo: int, hi: int)
    ensures Scores(Ranking(log, lo, hi), log, lo, hi)
  {
    if log != [] {
      var n := |log| - 1;
      RankingScores(log[..n], lo, hi);
      if During(log[n], lo, hi) {
        forall v: nat { IncreasedSpec(Ranking(log[..n], lo, hi), log[n].video, log[n].delta, v); }
        IncreasedSpec(Ranking(log[..n], lo, hi), log[n].video, log[n].delta, 0);
      }
    }
  }

  lemma SameScores(a: seq<ZMember>, b: seq<ZMember>)
    requires Ranked(a) && Ranked(b)
    requires forall v: nat :: ScoreOf(a, v) == ScoreOf(b, v)
    requires forall v: nat :: HasMember(a, v) <==> HasMember(b, v)
    ensures a == b
  {
    forall x ensures x in a <==> x in b {
      ScoreIs(a, x.member);
      ScoreIs(b, x.member);
    }
    RankedUnique(a, b);
  }

  // ---- Unions -----------------------------------------------------------------------------------

  lemma {:induction false} ScoreAppend(s: seq<ZMember>, e: ZMember, v: nat)
    requires !HasMember(s, e.member)
    ensures ScoreOf(s + [e], v) == ScoreOf(s, v) + (if e.member == v then e.score else 0)
    ensures HasMember(s + [e], v) <==> HasMember(s, v) || e.member == v
  {
    assert (s + [e])[|s|] == e;
    assert forall i :: 0 <= i < |s| ==> (s + [e])[i] == s[i];
    if s != [] {
      assert (s + [e])[1..] == s[1..] + [e];
      assert forall i :: 0 <= i < |s[1..]| ==> s[1..][i] == s[i + 1];
      ScoreAppend(s[1..], e, v);
    } else {
      assert s + [e] == [e];
    }
  }

  lemma RankedButLast(es: seq<ZMember>)
    requires Ranked(es) && es != []
    ensures Ranked(es[..|es| - 1]) && !HasMember(es[..|es| - 1], es[|es| - 1].member)
  {}

  lemma MergedAppend(s: seq<ZMember>, rest: seq<ZMember>, e: ZMember)
    ensures Merged(s, rest + [e]) == Increased(Merged(s, rest), e.member, e.score)
  {
    assert (rest + [e])[..|rest|] == rest;
  }

  /** `r` holds what `s` and `es` hold of a video together. */
  ghost predicate Sums(r: seq<ZMember>, s: seq<ZMember>, es: seq<ZMember>, v: nat) {
    && Ranked(r) && ScoreOf(r, v) == ScoreOf(s, v) + ScoreOf(es, v)
    && (HasMember(r, v) <==> HasMember(s, v) || HasMember(es, v))
  }

  lemma SumsStep(r: seq<ZMember>, s: seq<ZMember>, rest: seq<ZMember>, e: ZMember, v: nat)
    requires Sums(r, s, rest, v) && !HasMember(rest, e.member)
    ensures Sums(Increased(r, e.member, e.score), s, rest + [e], v)
  {
    IncreasedSpec(r, e.member, e.score, v);
    ScoreAppend(rest, e, v);
  }

  lemma {:induction false} MergedSpec(s: seq<ZMember>, es: seq<ZMember>, v: nat)
    requires Ranked(s) && Ranked(es)
    ensures Sums(Merged(s, es), s, es, v)
  {
    if es != [] {
      var rest, e := es[..|es| - 1], es[|es| - 1];
      assert es == rest + [e];
      RankedButLast(es);
      MergedSpec(s, rest, v);
      MergedAppend(s, rest, e);
      SumsStep(Merged(s, rest), s, rest, e, v);
    }
  }

  lemma {:induction false} WindowsAdd(log: seq<Change>, v: nat, lo: int, mid: int, hi: int)
    requires lo <= mid <= hi
    ensures Total(log, v, lo, hi) == Total(log, v, mid, hi) + Total(log, v, lo, mid)
    ensures Touched(log, v, lo, hi) <==> Touched(log, v, mid, hi) || Touched(log, v, lo, mid)
  {
    if log != [] {
      WindowsAdd(log[..|log| - 1], v, lo, mid, hi);
    }
  }

  /** Merging the rankings of two adjacent windows gives the ranking of both. */
  lemma MergeIsRanking(log: seq<Change>, lo: int, mid: int, hi: int)
    requires lo <= mid <= hi
    ensures Merged(Ranking(log, mid, hi), Ranking(log, lo, mid)) == Ranking(log, lo, hi)
  {
    var a, b := Ranking(log, mid, hi), Ranking(log, lo, mid);
    RankingScores(log, mid, hi);
    RankingScores(log, lo, mid);
    RankingScores(log, lo, hi);
    forall v: nat
      ensures ScoreOf(Merged(a, b), v) == Total(log, v, lo, hi)
        && (HasMember(Merged(a, b), v) <==> Touched(log, v, lo, hi))
    {
      MergedSpec(a, b, v);
      WindowsAdd(log, v, lo, mid, hi);
    }
    MergedSpec(a, b, 0);
    SameScores(Merged(a, b), Ranking(log, lo, hi));
  }

  // ---- The store ----------------------------------------------------------------------------------

  /** A bucket holds its minute, a snapshot the sixty minutes before its own; a bucket outlives its use. */
  ghost predicate KeyOk(k: Name, z: ZKey, log: seq<Change>, now: int) {
    k.minute <= Minute(now) &&
    match k
    case Bucket(m) =>
      z.entries == Ranking(log, m, m + 1) && (z.expires.Some? ==> z.expires.value >= m * MINUTE + BUCKET_TTL)
    case Snapshot(m) => z.entries == Ranking(log, m - WINDOW, m)
  }

  ghost predicate StoreOk(s: Store, log: seq<Change>, now: int) {
    && (forall k :: k in s ==> KeyOk(k, s[k], log, now))
    && (forall m: int :: Bucket(m) !in s ==> Ranking(log, m, m + 1) == [])
  }

  lemma TimePasses(s: Store, log: seq<Change>, now: int, later: int)
    requires StoreOk(s, log, now) && now <= later
    ensures StoreOk(s, log, later)
  {}

  /** A change counts in its own minute only: every window that is already closed keeps its ranking. */
  lemma ClosedWindows(log: seq<Change>, c: Change, lo: int, hi: int)
    requires !During(c, lo, hi)
    ensures Ranking(log + [c], lo, hi) == Ranking(log, lo, hi)
  {}

  function Logged(log: seq<Change>, v: nat, delta: int, incrOK: bool, now: int): seq<Change> {
    if incrOK then log + [Change(now, v, delta)] else log
  }

  lemma IncrKeeps(s: Store, log: seq<Change>, v: nat, delta: int, now: int)
    requires StoreOk(s, log, now)
    ensures StoreOk(Incr(s, Bucket(Minute(now)), v, delta, now), log + [Change(now, v, delta)], now)
  {
    var m, c := Minute(now), Change(now, v, delta);
    var s1 := Incr(s, Bucket(m), v, delta, now);
    assert (log + [c])[..|log|] == log;
    assert s1[Bucket(m)].entries == Ranking(log + [c], m, m + 1);
    forall k | k in s1 ensures KeyOk(k, s1[k], log + [c], now) {
      if k != Bucket(m) {
        assert s1[k] == s[k] && KeyOk(k, s[k], log, now);
        if k.Bucket? {
          ClosedWindows(log, c, k.minute, k.minute + 1);
        } else {
          ClosedWindows(log, c, k.minute - WINDOW, k.minute);
        }
      }
    }
    forall n: int | Bucket(n) !in s1 ensures Ranking(log + [c], n, n + 1) == [] {
      ClosedWindows(log, c, n, n + 1);
    }
  }

  lemma ExpireKeeps(s: Store, log: seq<Change>, now: int)
    requires StoreOk(s, log, now)
    ensures StoreOk(Expired(s, Bucket(Minute(now)), BUCKET_TTL, now), log, now)
  {}

  /** An update keeps every bucket and every ranking exact, whichever of its two commands fails. */
  lemma UpdateKeeps(s: Store, log: seq<Change>, v: nat, delta: int, incrOK: bool, expireOK: bool, now: int)
    requires StoreOk(s, log, now)
    ensures StoreOk(Updated(s, v, delta, incrOK, expireOK, now), Logged(log, v, delta, incrOK, now), now)
  {
    var s1 := if incrOK then Incr(s, Bucket(Minute(now)), v, delta, now) else s;
    if incrOK {
      IncrKeeps(s, log, v, delta, now);
    }
    assert StoreOk(s1, Logged(log, v, delta, incrOK, now), now);
    ExpireKeeps(s1, Logged(log, v, delta, incrOK, now), now);
  }

  lemma UnionStep(s: Store, m: int, n: nat, now: int)
    ensures Union(s, BucketsBefore(m, n + 1), now)
            == Merged(Union(s, BucketsBefore(m, n), now), Entries(s, Bucket(m - n - 1), now))
  {}

  /** A bucket whose time to live was set lives for exactly two hours. */
  lemma BucketLives(s: Store, v: nat, delta: int, now: int, later: int)
    requires now <= later
    ensures var updated := Updated(s, v, delta, true, true, now);
      Lookup(updated, Bucket(now / 60_000), later).Some? <==> later <= now + 7_200_000
  {}

  /** A bucket that a ranking needs has not expired. */
  lemma NeededBucketIsLive(s: Store, log: seq<Change>, now: int, b: int)
    requires StoreOk(s, log, now) && Minute(now) - WINDOW <= b < Minute(now)
    ensures Entries(s, Bucket(b), now) == Ranking(log, b, b + 1)
  {}

  lemma LiveSnapshotIsExact(s: Store, log: seq<Change>, m: int, now: int)
    requires StoreOk(s, log, now) && Lookup(s, Snapshot(m), now).Some?
    ensures Entries(s, Snapshot(m), now) == Ranking(log, m - WINDOW, m)
  {}

  lemma OneMoreBucket(s: Store, log: seq<Change>, m: int, now: int, n: nat)
    requires Union(s, BucketsBefore(m, n), now) == Ranking(log, m - n, m)
    requires Entries(s, Bucket(m - n - 1), now) == Ranking(log, m - n - 1, m - n)
    ensures Union(s, BucketsBefore(m, n + 1), now) == Ranking(log, m - n - 1, m)
  {
    UnionStep(s, m, n, now);
    MergeIsRanking(log, m - n - 1, m - n, m);
  }

  ghost predicate HasBuckets(s: Store, log: seq<Change>, m: int, now: int) {
    forall b :: m - WINDOW <= b < m ==> Entries(s, Bucket(b), now) == Ranking(log, b, b + 1)
  }

  /** The union of the buckets is the ranking of the whole window. */
  lemma {:induction false} UnionIsRanking(s: Store, log: seq<Change>, m: int, now: int, n: nat)
    requires HasBuckets(s, log, m, now) && n <= WINDOW
    ensures Union(s, BucketsBefore(m, n), now) == Ranking(log, m - n, m)
  {
    if n == 0 {
      NothingInNoTime(log, m);
    } else {
      UnionIsRanking(s, log, m, now, n - 1);
      assert Entries(s, Bucket(m - n), now) == Ranking(log, m - n, m - n + 1);
      OneMoreBucket(s, log, m, now, n - 1);
    }
  }

  lemma {:induction false} NothingInNoTime(log: seq<Change>, m: int)
    ensures Ranking(log, m, m) == []
  {
    if log != [] {
      NothingInNoTime(log[..|log| - 1], m);
    }
  }

  lemma WindowUnion(s: Store, log: seq<Change>, now: int)
    requires StoreOk(s, log, now)
    ensures Union(s, BucketsBefore(Minute(now), WINDOW), now) == Ranking(log, Minute(now) - WINDOW, Minute(now))
  {
    forall b | Minute(now) - WINDOW <= b < Minute(now) { NeededBucketIsLive(s, log, now, b); }
    UnionIsRanking(s, log, Minute(now), now, WINDOW);
  }

  lemma RebuildKeeps(s: Store, log: seq<Change>, f: Faults, now: int)
    requires StoreOk(s, log, now)
    ensures var m := Minute(now); var s1 := Rebuilt(s, m, f, now);
      StoreOk(s1, log, now) && (!f.union ==> Entries(s1, Snapshot(m), now) == Ranking(log, m - WINDOW, m))
  {
    WindowUnion(s, log, now);
  }

  /** The union failed and there is no ranking of this minute to fall back on. */
  predicate UnionLost(s: Store, m: int, f: Faults, now: int) {
    f.union && Lookup(s, Snapshot(m), now).None?
  }

  lemma RebuiltEntries(s: Store, log: seq<Change>, f: Faults, now: int)
    requires StoreOk(s, log, now)
    ensures var m := Minute(now);
      Entries(Rebuilt(s, m, f, now), Snapshot(m), now)
      == if UnionLost(s, m, f, now) then [] else Ranking(log, m - WINDOW, m)
  {
    var m := Minute(now);
    RebuildKeeps(s, log, f, now);
    if Lookup(s, Snapshot(m), now).Some? {
      LiveSnapshotIsExact(s, log, m, now);
    }
  }

  function Shown(s: Store, log: seq<Change>, m: int, f: Faults, now: int): seq<ZMember> {
    if UnionLost(s, m, f, now) then [] else Ranking(log, m - WINDOW, m)
  }

  lemma PreparedEntries(s: Store, log: seq<Change>, asOf: int, f: Faults, now: int)
    requires StoreOk(s, log, now)
    ensures StoreOk(Prepared(s, asOf, f, now), log, now)
    ensures var m := Chosen(s, asOf, now);
      Entries(Prepared(s, asOf, f, now), Snapshot(m), now) == Shown(s, log, m, f, now)
  {
    if asOf > 0 && Lookup(s, Snapshot(asOf / 60), now).Some? {
      LiveSnapshotIsExact(s, log, asOf / 60, now);
    } else {
      RebuildKeeps(s, log, f, now);
      RebuiltEntries(s, log, f, now);
    }
  }

  /** Every answer is a page of the exact ranking of the minute it names, unless the union failed with
      nothing to fall back on: the service does not report that, and answers from an empty ranking. */
  lemma ListedIsExact(s: Store, log: seq<Change>, asOf: int, offset: int, limit: nat, f: Faults, now: int)
    requires StoreOk(s, log, now)
    ensures var (s1, r) := Listed(s, asOf, offset, limit, f, now); var m := Chosen(s, asOf, now);
      && StoreOk(s1, log, now)
      && r == if (asOf > 0 && f.lookup) || f.range || f.reader then Failed
              else PageOf(Shown(s, log, m, f, now), m, offset, limit)
  {
    PreparedEntries(s, log, asOf, f, now);
  }

  /** A ranking just built lives for exactly two minutes, if it is not empty and its time to live was set. */
  lemma SnapshotLives(s: Store, log: seq<Change>, f: Faults, now: int, later: int)
    requires StoreOk(s, log, now) && now <= later && !f.union && !f.expire
    requires Ranking(log, Minute(now) - WINDOW, Minute(now)) != []
    ensures Lookup(Rebuilt(s, Minute(now), f, now), Snapshot(Minute(now)), later).Some? <==> later <= now + 120_000
  {
    WindowUnion(s, log, now);
  }

  /** The `as_of` of an answer selects the same ranking again for as long as that lives. */
  lemma AsOfSelectsTheSame(s: Store, asOf: int, offset: int, limit: nat, f: Faults, now: int, later: int)
    ensures var (s1, r) := Listed(s, asOf, offset, limit, f, now);
      r.HotPage? && 0 < r.asOf && Lookup(s1, Snapshot(r.asOf / 60), later).Some? ==>
        Chosen(s1, r.asOf, later) == Chosen(s, asOf, now)
  {}

  // ---- Pages --------------------------------------------------------------------------------------

  /** The ids in rank order, highest score first. */
  function Ids(entries: seq<ZMember>): seq<nat> {
    Members(Reverse(entries))
  }

  lemma RangeIsSlice(entries: seq<ZMember>, offset: nat, limit: nat)
    ensures var r := RevRange(entries, offset, offset + limit);
      (|r| > limit <==> offset + limit < |entries|)
      && Take(r, limit) == if offset < |entries| then Take(Reverse(entries), offset + limit)[offset..] else []
  {}

  lemma MembersOfTake(all: seq<ZMember>, n: nat)
    ensures Take(Members(all), n) == Members(Take(all, n))
  {}

  lemma PageIds(entries: seq<ZMember>, offset: nat, limit: nat)
    ensures Members(Take(RevRange(entries, offset, offset + limit), limit)) ==
      if offset < |entries| then Take(Ids(entries), offset + limit)[offset..] else []
  {
    RangeIsSlice(entries, offset, limit);
    MembersOfTake(Reverse(entries), offset + limit);
  }

  lemma TakeThenRest(ids: seq<nat>, offset: nat, limit: nat)
    ensures Take(ids, offset) + (if offset < |ids| then Take(ids, offset + limit)[offset..] else []) ==
      Take(ids, offset + limit)
  {}

  /** A page from a non-negative offset is that stretch of the ranking, and more remains exactly if it does. */
  lemma PageIsSlice(entries: seq<ZMember>, m: int, offset: nat, limit: nat)
    ensures var r := PageOf(entries, m, offset, limit);
      Take(Ids(entries), offset) + r.ids == Take(Ids(entries), offset + limit)
      && (r.hasMore <==> offset + limit < |entries|)
  {
    RangeIsSlice(entries, offset, limit);
    PageIds(entries, offset, limit);
    TakeThenRest(Ids(entries), offset, limit);
  }

  // ---- Runs ---------------------------------------------------------------------------------------

  /** One client that follows the pages: it sends back the `as_of` and the offset it was given. */
  datatype Walk = Walk(asOf: int, offset: nat, got: seq<nat>, finished: bool)

  const START := Walk(0, 0, [], false)

  datatype World = World(store: Store, log: seq<Change>, now: int, walk: Walk)

  datatype Step =
    | Tick(to: int)
    | Update(video: nat, delta: int, incrOK: bool, expireOK: bool)
    | List(asOf: int, offset: int, limit: nat, faults: Faults)
    | Follow(limit: nat, faults: Faults)

  function Followed(k: Walk, r: Response): Walk {
    if r.HotPage? && r.offset >= 0 then Walk(r.asOf, r.offset, k.got + r.ids, !r.hasMore) else k
  }

  function Next(w: World, step: Step): World {
    match step
    case Tick(to) => w.(now := to)
    case Update(v, delta, incrOK, expireOK) =>
      w.(store := Updated(w.store, v, delta, incrOK, expireOK, w.now), log := Logged(w.log, v, delta, incrOK, w.now))
    case List(asOf, offset, limit, f) => w.(store := Listed(w.store, asOf, offset, limit, f, w.now).0)
    case Follow(limit, f) =>
      var (s, r) := Listed(w.store, w.walk.asOf, w.walk.offset, limit, f, w.now);
      w.(store := s, walk := Followed(w.walk, r))
  }

  /** The clock does not go back. The first page needs its union; a later page, a snapshot that still lives. */
  predicate Enabled(w: World, step: Step) {
    match step
    case Tick(to) => w.now <= to
    case Update(_, _, _, _) => true
    case List(_, _, _, _) => true
    case Follow(limit, f) =>
      && !w.walk.finished && w.now >= MINUTE
      && if w.walk.asOf == 0 then !f.union else Lookup(w.store, Snapshot(w.walk.asOf / 60), w.now).Some?
  }

  /** What was received is the ranking up to the offset, and the walk is over exactly at its end. */
  ghost predicate Reads(k: Walk, m: int, entries: seq<ZMember>) {
    k.asOf == m * 60 && k.got == Take(Ids(entries), k.offset) && (k.finished <==> k.offset >= |entries|)
  }

  ghost predicate WalkOk(k: Walk, log: seq<Change>, now: int) {
    if k.asOf <= 0 then k == START
    else k.asOf / 60 <= Minute(now) && Reads(k, k.asOf / 60, Ranking(log, k.asOf / 60 - WINDOW, k.asOf / 60))
  }

  ghost predicate WorldOk(w: World) {
    StoreOk(w.store, w.log, w.now) && WalkOk(w.walk, w.log, w.now)
  }

  lemma UpdateKeepsWalk(k: Walk, log: seq<Change>, v: nat, delta: int, incrOK: bool, now: int)
    requires WalkOk(k, log, now)
    ensures WalkOk(k, Logged(log, v, delta, incrOK, now), now)
  {}

  lemma FollowedReads(k: Walk, m: int, entries: seq<ZMember>, limit: nat)
    requires k == START || Reads(k, m, entries)
    ensures Reads(Followed(k, PageOf(entries, m, k.offset, limit)), m, entries)
  {
    PageIsSlice(entries, m, k.offset, limit);
    assert Take(Ids(entries), 0) == [];
  }

  lemma FollowedKeeps(k: Walk, log: seq<Change>, now: int, m: int, limit: nat, r: Response)
    requires WalkOk(k, log, now) && 0 < m <= Minute(now) && (k.asOf > 0 ==> m == k.asOf / 60)
    requires r == Failed || r == PageOf(Ranking(log, m - WINDOW, m), m, k.offset, limit)
    ensures WalkOk(Followed(k, r), log, now)
  {
    if r.HotPage? {
      FollowedReads(k, m, Ranking(log, m - WINDOW, m), limit);
      assert Followed(k, r).asOf / 60 == m;
    }
  }

  /** The page a walk receives, if any, is one of the ranking it is reading. */
  /** The minute that a followed page reads, and that it does not read an empty ranking in its place. */
  lemma FollowedMinute(w: World, limit: nat, f: Faults)
    requires WorldOk(w) && Enabled(w, Follow(limit, f))
    ensures var m := Chosen(w.store, w.walk.asOf, w.now);
      && 0 < m <= Minute(w.now) && (w.walk.asOf > 0 ==> m == w.walk.asOf / 60)
      && !UnionLost(w.store, m, f, w.now)
  {}

  lemma FollowedPage(w: World, limit: nat, f: Faults)
    requires WorldOk(w) && Enabled(w, Follow(limit, f))
    ensures var (s, r) := Listed(w.store, w.walk.asOf, w.walk.offset, limit, f, w.now);
      var m := Chosen(w.store, w.walk.asOf, w.now);
      StoreOk(s, w.log, w.now) && 0 < m <= Minute(w.now) && (w.walk.asOf > 0 ==> m == w.walk.asOf / 60)
      && (r == Failed || r == PageOf(Ranking(w.log, m - WINDOW, m), m, w.walk.offset, limit))
  {
    FollowedMinute(w, limit, f);
    ListedIsExact(w.store, w.log, w.walk.asOf, w.walk.offset, limit, f, w.now);
  }

  lemma FollowKeeps(w: World, limit: nat, f: Faults)
    requires WorldOk(w) && Enabled(w, Follow(limit, f))
    ensures WorldOk(Next(w, Follow(limit, f)))
  {
    FollowedPage(w, limit, f);
    var r := Listed(w.store, w.walk.asOf, w.walk.offset, limit, f, w.now).1;
    FollowedKeeps(w.walk, w.log, w.now, Chosen(w.store, w.walk.asOf, w.now), limit, r);
  }

  lemma StepKeeps(w: World, step: Step)
    requires WorldOk(w) && Enabled(w, step)
    ensures WorldOk(Next(w, step))
  {
    match step
    case Tick(to) => TimePasses(w.store, w.log, w.now, to);
    case Update(v, delta, incrOK, expireOK) =>
      UpdateKeeps(w.store, w.log, v, delta, incrOK, expireOK, w.now);
      UpdateKeepsWalk(w.walk, w.log, v, delta, incrOK, w.now);
    case List(asOf, offset, limit, f) => ListedIsExact(w.store, w.log, asOf, offset, limit, f, w.now);
    case Follow(limit, f) => FollowKeeps(w, limit, f);
  }

  function Run(w: World, steps: seq<Step>): World
    decreases |steps|
  {
    if steps == [] then w else Run(Next(w, steps[0]), steps[1..])
  }

  predicate RunEnabled(w: World, steps: seq<Step>)
    decreases |steps|
  {
    steps != [] ==> Enabled(w, steps[0]) && RunEnabled(Next(w, steps[0]), steps[1..])
  }

  /** Sliding-window exactness over all runs: buckets and rankings are the sums of the logged changes, with
      any commands failing; and the pages a client followed are its ranking, without a gap or an overlap. */
  lemma {:induction false} RankingsAreExact(w: World, steps: seq<Step>)
    requires WorldOk(w) && RunEnabled(w, steps)
    ensures WorldOk(Run(w, steps))
    decreases |steps|
  {
    if steps != [] {
      StepKeeps(w, steps[0]);
      RankingsAreExact(Next(w, steps[0]), steps[1..]);
    }
  }

  const EMPTY := World(map[], [], 0, START)

  /** No video twice, and one that stands before another has gained at least as much. */
  ghost predicate BestFirst(log: seq<Change>, lo: int, hi: int, ids: seq<nat>) {
    forall i, j :: 0 <= i < j < |ids| ==> ids[i] != ids[j] && Total(log, ids[i], lo, hi) >= Total(log, ids[j], lo, hi)
  }

  lemma ScoreAt(r: seq<ZMember>, p: nat)
    requires Ranked(r) && p < |r|
    ensures ScoreOf(r, r[p].member) == r[p].score
  {
    ScoreIs(r, r[p].member);
  }

  lemma HigherHasMore(r: seq<ZMember>, p: nat, q: nat)
    requires Ranked(r) && p < q < |r|
    ensures r[p].member != r[q].member && ScoreOf(r, r[p].member) <= ScoreOf(r, r[q].member)
  {
    ScoreAt(r, p);
    ScoreAt(r, q);
    assert Below(r[p], r[q]);
  }

  lemma IdAt(r: seq<ZMember>, i: nat)
    requires i < |r|
    ensures |Ids(r)| == |r| && Ids(r)[i] == r[|r| - 1 - i].member
  {}

  lemma RankingIsBestFirst(log: seq<Change>, lo: int, hi: int)
    ensures BestFirst(log, lo, hi, Ids(Ranking(log, lo, hi)))
  {
    var r := Ranking(log, lo, hi);
    RankingScores(log, lo, hi);
    forall i, j | 0 <= i < j < |Ids(r)|
      ensures Ids(r)[i] != Ids(r)[j] && Total(log, Ids(r)[i], lo, hi) >= Total(log, Ids(r)[j], lo, hi)
    {
      IdAt(r, i);
      IdAt(r, j);
      HigherHasMore(r, |r| - 1 - j, |r| - 1 - i);
    }
  }

  /** Every outside call of the request succeeds. */
  predicate NoFaults(f: Faults) {
    !f.lookup && !f.union && !f.expire && !f.range && !f.reader
  }

  function Follows(steps: seq<Step>): nat {
    if steps == [] then 0 else (if steps[0].Follow? then 1 else 0) + Follows(steps[1..])
  }

  /** No page that is followed meets a fault, and each asks for something. */
  ghost predicate Faultless(steps: seq<Step>) {
    forall step :: step in steps && step.Follow? ==> NoFaults(step.faults) && 0 < step.limit
  }

  lemma FollowAdvances(w: World, limit: nat, f: Faults)
    requires WorldOk(w) && Enabled(w, Follow(limit, f)) && NoFaults(f)
    ensures var k := Next(w, Follow(limit, f)).walk; 0 < k.asOf && k.offset == w.walk.offset + limit
  {
    FollowedPage(w, limit, f);
    ListedIsExact(w.store, w.log, w.walk.asOf, w.walk.offset, limit, f, w.now);
  }

  lemma {:induction false} FollowsAdvance(w: World, steps: seq<Step>)
    requires WorldOk(w) && RunEnabled(w, steps) && Faultless(steps)
    ensures Run(w, steps).walk.offset >= w.walk.offset + Follows(steps)
    ensures w.walk.asOf > 0 || Follows(steps) > 0 ==> Run(w, steps).walk.asOf > 0
    decreases |steps|
  {
    if steps != [] {
      StepKeeps(w, steps[0]);
      if steps[0].Follow? {
        assert steps[0] in steps;
        FollowAdvances(w, steps[0].limit, steps[0].faults);
      }
      FollowsAdvance(Next(w, steps[0]), steps[1..]);
    }
  }

  /** A walk that is past the end of its ranking is over. */
  lemma PastTheEnd(w: World, n: nat)
    requires WorldOk(w) && w.walk.asOf > 0 && n <= w.walk.offset
    ensures var m := w.walk.asOf / 60; |Ranking(w.log, m - 60, m)| <= n ==> w.walk.finished
  {}

  /** Pages that meet no fault and ask for at least one video end the walk after at most as many of them as the
      ranking has videos, whatever happens around it. */
  lemma FaultlessWalkFinishes(w: World, steps: seq<Step>)
    requires WorldOk(w) && w.walk == START && RunEnabled(w, steps) && Faultless(steps) && 0 < Follows(steps)
    ensures var w' := Run(w, steps); var m := w'.walk.asOf / 60;
      |Ranking(w'.log, m - 60, m)| <= Follows(steps) ==> w'.walk.finished
  {
    FollowsAdvance(w, steps);
    RankingsAreExact(w, steps);
    PastTheEnd(Run(w, steps), Follows(steps));
  }

  /** From nothing: when the walk is over it has received the whole ranking, best first, by the sum of the
      changes of the sixty minutes before the one its first page named. */
  lemma FinishedWalkIsWholeRanking(steps: seq<Step>, v: nat)
    requires RunEnabled(EMPTY, steps) && Run(EMPTY, steps).walk.finished
    ensures
      var w := Run(EMPTY, steps); var m := w.walk.asOf / 60;
      && w.walk.got == Ids(Ranking(w.log, m - 60, m))
      && ScoreOf(Ranking(w.log, m - 60, m), v) == Total(w.log, v, m - 60, m)
      && (v in w.walk.got <==> Touched(w.log, v, m - 60, m))
      && BestFirst(w.log, m - 60, m, w.walk.got)
  {
    RankingsAreExact(EMPTY, steps);
    var w := Run(EMPTY, steps);
    var m := w.walk.asOf / 60;
    RankingScores(w.log, m - 60, m);
    InIds(Ranking(w.log, m - 60, m), v);
    RankingIsBestFirst(w.log, m - 60, m);
    FinishedGot(w.walk, Ranking(w.log, m - 60, m), m);
  }

  lemma FinishedGot(k: Walk, r: seq<ZMember>, m: int)
    requires Reads(k, m, r) && k.finished
    ensures k.got == Ids(r)
  {}

  lemma InIds(s: seq<ZMember>, v: nat)
    ensures v in Ids(s) <==> HasMember(s, v)
  {
    if i :| 0 <= i < |s| && s[i].member == v {
      assert Ids(s)[|s| - 1 - i] == v;
    }
  }

  lemma FreshRanking(w: World, f: Faults, m: int)
    requires StoreOk(w.store, w.log, w.now) && !f.union && m == Minute(w.now)
    ensures Entries(Rebuilt(w.store, m, f, w.now), Snapshot(m), w.now) == Ranking(w.log, m - WINDOW, m)
  {
    RebuildKeeps(w.store, w.log, f, w.now);
  }

  /** A ranking that is built again in the same minute is the same, whatever happened in between. */
  lemma RebuiltRankingIsTheSame(w: World, steps: seq<Step>, f: Faults, g: Faults)
    requires WorldOk(w) && RunEnabled(w, steps) && !f.union && !g.union
    requires Minute(Run(w, steps).now) == Minute(w.now)
    ensures var m := Minute(w.now); var w' := Run(w, steps);
      Entries(Rebuilt(w.store, m, f, w.now), Snapshot(m), w.now)
      == Entries(Rebuilt(w'.store, m, g, w'.now), Snapshot(m), w'.now)
  {
    var m := Minute(w.now);
    RankingsAreExact(w, steps);
    ClosedRankingIsStable(w, steps, m);
    FreshRanking(w, f, m);
    FreshRanking(Run(w, steps), g, m);
  }

  lemma {:induction false} ClosedRankingIsStable(w: World, steps: seq<Step>, m: int)
    requires RunEnabled(w, steps) && m <= Minute(w.now)
    ensures Ranking(Run(w, steps).log, m - WINDOW, m) == Ranking(w.log, m - WINDOW, m)
    decreases |steps|
  {
    if steps != [] {
      ClosedRankingIsStable(Next(w, steps[0]), steps[1..], m);
      if steps[0].Update? {
        ClosedWindows(w.log, Change(w.now, steps[0].video, steps[0].delta), m - WINDOW, m);
      }
    }
  }
}
