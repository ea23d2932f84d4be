/** Video entities through three levels: a local cache with a five-second life, Redis, and the
    database. A batch read answers as the database would, up to what the local cache remembers. */
module VideoReader {
  import opened Sequences

  datatype Video = Video(id: nat, authorID: nat, username: string, title: string, description: string,
                         videoKey: string, coverKey: string, createdAt: int, deletedAt: Option<int>,
                         likedCount: nat, dislikedCount: nat, commentCount: nat)

  /** What is cached: everything but the deletion mark. */
  datatype Entity = Entity(id: nat, authorID: nat, username: string, title: string, description: string,
                           videoKey: string, coverKey: string, createdAt: int,
                           likedCount: nat, dislikedCount: nat, commentCount: nat)

  function ToEntity(v: Video): Entity {
    Entity(v.id, v.authorID, v.username, v.title, v.description, v.videoKey, v.coverKey, v.createdAt,
           v.likedCount, v.dislikedCount, v.commentCount)
  }

  function ToVideo(e: Entity): Video {
    Video(e.id, e.authorID, e.username, e.title, e.description, e.videoKey, e.coverKey, e.createdAt, None,
          e.likedCount, e.dislikedCount, e.commentCount)
  }

  /** Caching loses nothing of a video that is not soft-deleted, and only of those. */
  lemma EntityRoundTrip(v: Video)
    ensures ToVideo(ToEntity(v)) == v <==> v.deletedAt == None
  {}

  /** A Redis value: the JSON of an entity, or bytes that do not decode. */
  datatype Blob = Json(entity: Entity) | Corrupt

  datatype Timed = Timed(entity: Entity, expires: int)

  const L1_TTL: int := 5000

  type Rows = map<nat, Video>
  type L1 = map<nat, Timed>
  type L2 = map<nat, Blob>

  predicate Live(l1: L1, id: nat, now: int) {
    id in l1 && now <= l1[id].expires
  }

  predicate Decodes(l2: L2, id: nat) {
    id in l2 && l2[id].Json?
  }

  /** Rows are keyed by id and never soft-deleted: deletion is physical. */
  ghost predicate RowsOk(rows: Rows) {
    forall id :: id in rows ==> rows[id].id == id && rows[id].deletedAt == None
  }

  /** Redis never contradicts the database. */
  ghost predicate Coherent(l2: L2, rows: Rows) {
    forall id :: Decodes(l2, id) ==> id in rows && l2[id].entity == ToEntity(rows[id])
  }

  /** Local entries carry their own id. */
  ghost predicate Keyed(l1: L1) {
    forall id :: id in l1 ==> l1[id].entity.id == id
  }

  /** What a read of one id answers: the live local entry, else the row. */
  function View(l1: L1, rows: Rows, now: int, id: nat): Option<Video> {
    if Live(l1, id, now) then Some(ToVideo(l1[id].entity))
    else if id in rows then Some(rows[id])
    else None
  }

  function Select(ids: seq<nat>, found: map<nat, Video>): seq<Video> {
    if ids == [] then []
    else Select(ids[..|ids| - 1], found) + if ids[|ids| - 1] in found then [found[ids[|ids| - 1]]] else []
  }

  /** The database's own batch query: the existing rows in request order, repeats included. */
  function GetVideosByIDs(rows: Rows, ids: seq<nat>): seq<Video> {
    Select(ids, rows)
  }

  /** Everything a batch read can see at `now`. */
  function Visible(l1: L1, rows: Rows, now: int, ids: seq<nat>): map<nat, Video> {
    map id | id in ids && View(l1, rows, now, id).Some? :: View(l1, rows, now, id).value
  }

  // ---- The repository's query ---------------------------------------------------------------

  /** `items` is the unordered result of the IN query. */
  method OrderByIDs(rows: Rows, items: seq<Video>, ids: seq<nat>) returns (out: seq<Video>)
    requires RowsOk(rows)
    requires forall v :: v in items <==> v.id in ids && v.id in rows && rows[v.id] == v
    ensures out == GetVideosByIDs(rows, ids)
  {
    var byID: map<nat, Video> := map[];
    for i := 0 to |items|
      invariant forall id :: id in byID <==> exists j :: 0 <= j < i && items[j].id == id
      invariant forall id :: id in byID ==> id in rows && byID[id] == rows[id]
    {
      assert items[i] in items;
      byID := byID[items[i].id := items[i]];
    }
    out := [];
    for i := 0 to |ids|
      invariant out == Select(ids[..i], rows)
    {
      var id := ids[i];
      assert ids[..i + 1][..i] == ids[..i];
      assert id in rows ==> rows[id] in items;
      if id in byID {
        out := out + [byID[id]];
      }
    }
    assert ids[..|ids|] == ids;
  }

  // ---- What a read leaves behind ----------------------------------------------------------------

  /** The local cache after these ids were looked up: each that has a row is held with it for five seconds. */
  ghost predicate Renewed(before: L1, after: L1, rows: Rows, now: int, ids: set<nat>) {
    && (forall id :: id in after <==> id in before || (id in ids && id in rows))
    && (forall id :: id in after ==>
          after[id] == if id in ids && id in rows then Timed(ToEntity(rows[id]), now + 5000) else before[id])
  }

  /** Redis after these ids were backfilled. */
  ghost predicate Stored(before: L2, after: L2, rows: Rows, ids: set<nat>) {
    && (forall id :: id in after <==> id in before || (id in ids && id in rows))
    && (forall id :: id in after ==>
          after[id] == if id in ids && id in rows then Json(ToEntity(rows[id])) else before[id])
  }

  /** The ids that have no live local entry, and of these the ones that Redis does not answer. */
  function NotLocal(l1: L1, now: int, ids: seq<nat>): set<nat> {
    set id | id in ids && !Live(l1, id, now)
  }

  function NotCached(l1: L1, l2: L2, now: int, ids: seq<nat>, redisFails: bool): set<nat> {
    set id | id in ids && !Live(l1, id, now) && (redisFails || !Decodes(l2, id))
  }

  function Decoded(l2: L2, ids: seq<nat>): set<nat> {
    set id | id in ids && Decodes(l2, id)
  }

  /** The caches after these videos were written to them one by one. */
  function FilledL1(l1: L1, vs: seq<Video>, now: int): L1 {
    if vs == [] then l1
    else
      var v := vs[|vs| - 1];
      FilledL1(l1, vs[..|vs| - 1], now)[v.id := Timed(ToEntity(v), now + L1_TTL)]
  }

  function FilledL2(l2: L2, vs: seq<Video>, lost: set<nat>): L2 {
    if vs == [] then l2
    else
      var v, before := vs[|vs| - 1], FilledL2(l2, vs[..|vs| - 1], lost);
      if v.id in lost then before else before[v.id := Json(ToEntity(v))]
  }

  lemma FilledSnoc(l1: L1, l2: L2, vs: seq<Video>, v: Video, now: int, lost: set<nat>)
    ensures FilledL1(l1, vs + [v], now) == FilledL1(l1, vs, now)[v.id := Timed(ToEntity(v), now + 5000)]
    ensures FilledL2(l2, vs + [v], lost) ==
      if v.id in lost then FilledL2(l2, vs, lost) else FilledL2(l2, vs, lost)[v.id := Json(ToEntity(v))]
  {
    assert (vs + [v])[..|vs|] == vs;
  }

  lemma HitIsRow(rows: Rows, l2: L2, id: nat)
    requires RowsOk(rows) && Coherent(l2, rows) && Decodes(l2, id)
    ensures id in rows && ToVideo(l2[id].entity) == rows[id] && l2[id].entity == ToEntity(rows[id])
    ensures rows[id].id == id && l2[id].entity.id == id
  {
    EntityRoundTrip(rows[id]);
  }

  function IdsOf(vs: seq<Video>): set<nat> {
    set v | v in vs :: v.id
  }

  ghost predicate AreRows(vs: seq<Video>, rows: Rows) {
    forall v :: v in vs ==> v.id in rows && rows[v.id] == v
  }

  lemma {:induction false} FilledIsRenewed(l1: L1, vs: seq<Video>, rows: Rows, now: int)
    requires AreRows(vs, rows)
    ensures Renewed(l1, FilledL1(l1, vs, now), rows, now, IdsOf(vs))
  {
    if vs != [] {
      var front, v := vs[..|vs| - 1], vs[|vs| - 1];
      FilledIsRenewed(l1, front, rows, now);
      assert vs == front + [v];
      assert IdsOf(vs) == IdsOf(front) + {v.id};
    }
  }

  lemma {:induction false} FilledIsStored(l2: L2, vs: seq<Video>, rows: Rows, lost: set<nat>)
    requires AreRows(vs, rows)
    ensures Stored(l2, FilledL2(l2, vs, lost), rows, IdsOf(vs) - lost)
  {
    if vs != [] {
      var front, v := vs[..|vs| - 1], vs[|vs| - 1];
      FilledIsStored(l2, front, rows, lost);
      assert vs == front + [v];
      assert IdsOf(vs) == IdsOf(front) + {v.id};
    }
  }

  lemma SameRenewed(l1: L1, after: L1, rows: Rows, now: int, a: set<nat>, b: set<nat>)
    requires Renewed(l1, after, rows, now, a) && forall id :: id in rows ==> (id in a <==> id in b)
    ensures Renewed(l1, after, rows, now, b)
  {}

  lemma SameStored(l2: L2, after: L2, rows: Rows, a: set<nat>, b: set<nat>)
    requires Stored(l2, after, rows, a) && forall id :: id in rows ==> (id in a <==> id in b)
    ensures Stored(l2, after, rows, b)
  {}

  lemma Untouched(l1: L1, l2: L2, rows: Rows, now: int)
    ensures Renewed(l1, l1, rows, now, {}) && Stored(l2, l2, rows, {})
  {}

  lemma RenewedOne(l1: L1, mid: L1, rows: Rows, now: int, ids: set<nat>, id: nat)
    requires Renewed(l1, mid, rows, now, ids) && id in rows
    ensures Renewed(l1, mid[id := Timed(ToEntity(rows[id]), now + 5000)], rows, now, ids + {id})
  {}

  lemma RenewedTwice(l1: L1, mid: L1, after: L1, rows: Rows, now: int, missed: set<nat>, unread: set<nat>)
    requires Renewed(l1, mid, rows, now, missed - unread) && Renewed(mid, after, rows, now, unread) && unread <= missed
    ensures Renewed(l1, after, rows, now, missed)
  {}

  lemma RenewedKeeps(l1: L1, after: L1, rows: Rows, now: int, ids: set<nat>)
    requires Renewed(l1, after, rows, now, ids) && RowsOk(rows) && Keyed(l1)
    ensures Keyed(after)
  {}

  lemma StoredKeeps(l2: L2, after: L2, rows: Rows, ids: set<nat>)
    requires Stored(l2, after, rows, ids) && Coherent(l2, rows)
    ensures Coherent(after, rows)
  {}

  /** What has been found so far is what the ids are to be answered with. */
  ghost predicate Answers(start: L1, rows: Rows, now: int, ids: seq<nat>, found: map<nat, Video>) {
    forall id :: id in found ==> id in ids && View(start, rows, now, id) == Some(found[id])
  }

  lemma AnswersOne(start: L1, rows: Rows, now: int, ids: seq<nat>, found: map<nat, Video>, id: nat)
    requires Answers(start, rows, now, ids, found) && id in ids && !Live(start, id, now) && id in rows
    ensures Answers(start, rows, now, ids, found[id := rows[id]])
  {}

  /** The answers with these videos added. */
  function FoundAll(before: map<nat, Video>, vs: seq<Video>): map<nat, Video> {
    if vs == [] then before else FoundAll(before, vs[..|vs| - 1])[vs[|vs| - 1].id := vs[|vs| - 1]]
  }

  lemma FoundSnoc(before: map<nat, Video>, vs: seq<Video>, v: Video)
    ensures FoundAll(before, vs + [v]) == FoundAll(before, vs)[v.id := v]
  {
    assert (vs + [v])[..|vs|] == vs;
  }

  lemma {:induction false} FoundAnswers(start: L1, rows: Rows, now: int, ids: seq<nat>, before: map<nat, Video>,
                                        vs: seq<Video>)
    requires Answers(start, rows, now, ids, before) && AreRows(vs, rows)
    requires forall v :: v in vs ==> v.id in ids && !Live(start, v.id, now)
    ensures Answers(start, rows, now, ids, FoundAll(before, vs))
    ensures forall id :: id in before ==> id in FoundAll(before, vs)
    ensures forall v :: v in vs ==> v.id in FoundAll(before, vs)
  {
    if vs != [] {
      var front, v := vs[..|vs| - 1], vs[|vs| - 1];
      assert vs == front + [v];
      FoundAnswers(start, rows, now, ids, before, front);
      AnswersOne(start, rows, now, ids, FoundAll(before, front), v.id);
    }
  }

  /** A multi-get, one id after the other: the local cache and the answers it leaves, and the ids left over. */
  function Taken(l1: L1, l2: L2, before: map<nat, Video>, ids: seq<nat>, now: int): (L1, map<nat, Video>, seq<nat>) {
    if ids == [] then (l1, before, [])
    else
      var id, (held, found, rest) := ids[|ids| - 1], Taken(l1, l2, before, ids[..|ids| - 1], now);
      if !Decodes(l2, id) then (held, found, rest + [id])
      else
        var entity := l2[id].entity;
        (held[id := Timed(entity, now + L1_TTL)], found[entity.id := ToVideo(entity)], rest)
  }

  lemma {:induction false} TakenHolds(l1: L1, l2: L2, rows: Rows, before: map<nat, Video>, ids: seq<nat>, now: int)
    requires RowsOk(rows) && Coherent(l2, rows)
    ensures var (held, found, rest) := Taken(l1, l2, before, ids, now);
      && Renewed(l1, held, rows, now, Decoded(l2, ids))
      && (forall id :: id in rest <==> id in ids && !Decodes(l2, id))
  {
    if ids != [] {
      var front, id := ids[..|ids| - 1], ids[|ids| - 1];
      assert ids == front + [id];
      TakenHolds(l1, l2, rows, before, front, now);
      if Decodes(l2, id) {
        HitIsRow(rows, l2, id);
        RenewedOne(l1, Taken(l1, l2, before, front, now).0, rows, now, Decoded(l2, front), id);
        assert Decoded(l2, front) + {id} == Decoded(l2, ids);
      } else {
        assert Decoded(l2, front) == Decoded(l2, ids);
      }
    }
  }

  lemma {:induction false} TakenAnswers(l1: L1, l2: L2, rows: Rows, before: map<nat, Video>, asked: seq<nat>,
                                        ids: seq<nat>, now: int)
    requires RowsOk(rows) && Coherent(l2, rows) && Answers(l1, rows, now, asked, before)
    requires forall id :: id in ids ==> id in asked && !Live(l1, id, now)
    ensures var found := Taken(l1, l2, before, ids, now).1;
      && Answers(l1, rows, now, asked, found) && (forall id :: id in before ==> id in found)
      && (forall id :: id in ids && Decodes(l2, id) ==> id in found)
  {
    if ids != [] {
      var front, id := ids[..|ids| - 1], ids[|ids| - 1];
      assert ids == front + [id];
      TakenAnswers(l1, l2, rows, before, asked, front, now);
      if Decodes(l2, id) {
        HitIsRow(rows, l2, id);
        AnswersOne(l1, rows, now, asked, Taken(l1, l2, before, front, now).1, id);
      }
    }
  }

  // ---- The reader -----------------------------------------------------------------------------

  /** Outcomes of one read: the Redis read, the database query, and the ids whose Redis write is lost. */
  datatype Faults = Faults(redis: bool, db: bool, lost: set<nat>)

  datatype Outcome = Found(video: Video) | NotFound | BadRequest | Unavailable

  class Reader {
    var rows: Rows
    var l1: L1
    var l2: L2
    var now: int

    constructor ()
      ensures rows == map[] && l1 == map[] && l2 == map[] && now == 0
    {
      rows, l1, l2, now := map[], map[], map[], 0;
    }

    ghost predicate Valid()
      reads this
    {
      RowsOk(rows) && Coherent(l2, rows) && Keyed(l1)
    }

    /** A live local entry answers; else Redis, if it can be read and decodes; else the row, unless the database fails.
        What was not answered locally is held locally from then on; what came from the row is written to Redis. */
    method GetByID(id: nat, faults: Faults) returns (r: Outcome)
      requires Valid()
      modifies this`l1, this`l2
      ensures Valid()
      ensures id == 0 ==> r == BadRequest && l1 == old(l1) && l2 == old(l2)
      ensures id != 0 && Live(old(l1), id, now) ==>
        r == Found(ToVideo(old(l1)[id].entity)) && l1 == old(l1) && l2 == old(l2)
      ensures id != 0 && !Live(old(l1), id, now) ==>
        var cached := !faults.redis && Decodes(old(l2), id);
        && r == (if !cached && faults.db then Unavailable else if id in rows then Found(rows[id]) else NotFound)
        && l1 == (if r.Found? then old(l1)[id := Timed(ToEntity(rows[id]), now + 5000)] else old(l1))
        && l2 == (if r.Found? && !cached && id !in faults.lost then old(l2)[id := Json(ToEntity(rows[id]))]
                  else old(l2))
    {
      if id <= 0 {
        return BadRequest;
      }
      if Live(l1, id, now) {
        return Found(ToVideo(l1[id].entity));
      }
      if !faults.redis && Decodes(l2, id) {
        var entity := l2[id].entity;
        EntityRoundTrip(rows[id]);
        l1 := l1[id := Timed(entity, now + L1_TTL)];
        return Found(ToVideo(entity));
      }
      if faults.db {
        return Unavailable;
      }
      if id !in rows {
        return NotFound;
      }
      Backfill(rows[id], faults.lost);
      return Found(rows[id]);
    }

    /** Writes a row just read to both caches; the Redis write may be lost. */
    method Backfill(v: Video, lost: set<nat>)
      modifies this`l1, this`l2
      ensures l1 == old(l1)[v.id := Timed(ToEntity(v), now + 5000)]
      ensures l2 == if v.id in lost then old(l2) else old(l2)[v.id := Json(ToEntity(v))]
    {
      var entity := ToEntity(v);
      if v.id !in lost {
        l2 := l2[v.id := Json(entity)];
      }
      l1 := l1[v.id := Timed(entity, now + L1_TTL)];
    }

    /** The three passes over a list of ids. There is no answer exactly when the database fails and some id is left
        to it; what Redis answered before that is held locally all the same. */
    method GetByIDs(ids: seq<nat>, faults: Faults) returns (r: Option<seq<Video>>)
      requires Valid()
      modifies this`l1, this`l2
      ensures Valid()
      ensures r.Some? ==> r.value == Select(ids, Visible(old(l1), rows, now, ids))
      ensures r.None? <==> faults.db && NotCached(old(l1), old(l2), now, ids, faults.redis) != {}
      ensures var missed, unread := NotLocal(old(l1), now, ids), NotCached(old(l1), old(l2), now, ids, faults.redis);
        && Renewed(old(l1), l1, rows, now, if r.Some? then missed else missed - unread)
        && Stored(old(l2), l2, rows, if r.Some? then unread - faults.lost else {})
    {
      ghost var missed, unread := NotLocal(l1, now, ids), NotCached(l1, l2, now, ids, faults.redis);
      Untouched(l1, l2, rows, now);
      if |ids| == 0 {
        assert missed == {} && unread == {};
        return Some([]);
      }
      var videoMap, rest := ReadCaches(ids, faults.redis);
      if |rest| > 0 && faults.db {
        assert rest[0] in unread;
        return None;
      }
      videoMap := ReadRest(ids, rest, videoMap, old(l1), unread, faults.lost);
      var result := Collect(ids, videoMap);
      return Some(result);
    }

    /** What has been found so far is right, and what is missing is exactly what remains to be asked. */
    ghost predicate Progress(ids: seq<nat>, start: L1, found: map<nat, Video>, missed: seq<nat>)
      reads this
    {
      && Answers(start, rows, now, ids, found)
      && (forall id :: id in ids ==> id in found || id in missed)
      && (forall id :: id in missed ==> id in ids && !Live(start, id, now))
    }

    lemma Complete(ids: seq<nat>, start: L1, found: map<nat, Video>, missed: seq<nat>)
      requires Progress(ids, start, found, missed)
      requires forall id :: id in missed && id in rows ==> id in found
      ensures found == Visible(start, rows, now, ids)
    {}

    /** The first two passes: what is left over is what neither cache answers. */
    method ReadCaches(ids: seq<nat>, redisFails: bool) returns (found: map<nat, Video>, rest: seq<nat>)
      requires Valid()
      modifies this`l1
      ensures Valid() && Progress(ids, old(l1), found, rest)
      ensures forall id :: id in rest <==> id in NotCached(old(l1), l2, now, ids, redisFails)
      ensures Renewed(old(l1), l1, rows, now,
                      NotLocal(old(l1), now, ids) - NotCached(old(l1), l2, now, ids, redisFails))
    {
      found, rest := ReadLocal(ids);
      if |rest| > 0 && !redisFails {
        var missed := rest;
        found, rest := ReadRedis(ids, missed, found);
        SameRenewed(old(l1), l1, rows, now, Decoded(l2, missed),
                    NotLocal(old(l1), now, ids) - NotCached(old(l1), l2, now, ids, redisFails));
      }
    }

    method ReadLocal(ids: seq<nat>) returns (found: map<nat, Video>, missed: seq<nat>)
      ensures Progress(ids, l1, found, missed)
      ensures forall id :: id in missed <==> id in NotLocal(l1, now, ids)
    {
      found, missed := map[], [];
      for i := 0 to |ids|
        invariant Progress(ids[..i], l1, found, missed)
        invariant forall id :: id in missed <==> id in NotLocal(l1, now, ids[..i])
      {
        var id := ids[i];
        assert ids[..i + 1] == ids[..i] + [id];
        if !Live(l1, id, now) {
          missed := missed + [id];
        } else {
          found := found[id := ToVideo(l1[id].entity)];
        }
      }
      assert ids[..|ids|] == ids;
    }

    /** The multi-get: what decodes is returned and kept locally, the rest goes on to the database. */
    method ReadRedis(ids: seq<nat>, missed: seq<nat>, before: map<nat, Video>)
      returns (found: map<nat, Video>, rest: seq<nat>)
      requires Valid() && Progress(ids, l1, before, missed)
      modifies this`l1
      ensures Valid() && Progress(ids, old(l1), found, rest)
      ensures forall id :: id in rest <==> id in missed && !Decodes(l2, id)
      ensures Renewed(old(l1), l1, rows, now, Decoded(l2, missed))
    {
      found, rest := TakeHits(missed, before);
      TakenHolds(old(l1), l2, rows, before, missed, now);
      TakenAnswers(old(l1), l2, rows, before, ids, missed, now);
      RenewedKeeps(old(l1), l1, rows, now, Decoded(l2, missed));
    }

    method TakeHits(missed: seq<nat>, before: map<nat, Video>) returns (found: map<nat, Video>, rest: seq<nat>)
      modifies this`l1
      ensures (l1, found, rest) == Taken(old(l1), l2, before, missed, now)
    {
      found, rest := before, [];
      for i := 0 to |missed|
        invariant (l1, found, rest) == Taken(old(l1), l2, before, missed[..i], now)
      {
        var id := missed[i];
        assert missed[..i + 1][..i] == missed[..i];
        if !Decodes(l2, id) {
          rest := rest + [id];
          continue;
        }
        var entity := l2[id].entity;
        found := found[entity.id := ToVideo(entity)];
        l1 := l1[id := Timed(entity, now + L1_TTL)];
      }
      assert missed[..|missed|] == missed;
    }

    /** The last pass, if there is anything left for it. */
    method ReadRest(ids: seq<nat>, rest: seq<nat>, before: map<nat, Video>, ghost start: L1, ghost unread: set<nat>,
                    lost: set<nat>)
      returns (found: map<nat, Video>)
      requires Valid() && Progress(ids, start, before, rest) && forall id :: id in rest <==> id in unread
      requires Renewed(start, l1, rows, now, NotLocal(start, now, ids) - unread)
      modifies this`l1, this`l2
      ensures Valid() && found == Visible(start, rows, now, ids)
      ensures Renewed(start, l1, rows, now, NotLocal(start, now, ids)) && Stored(old(l2), l2, rows, unread - lost)
    {
      Untouched(l1, l2, rows, now);
      if |rest| > 0 {
        found := ReadRows(ids, rest, before, start, unread, lost);
      } else {
        Complete(ids, start, before, rest);
        assert unread == {} && unread - lost == {};
        found := before;
      }
      RenewedTwice(start, old(l1), l1, rows, now, NotLocal(start, now, ids), unread);
    }

    /** The database pass, with backfill of both caches: it completes the answer. `unread` are the ids asked for. */
    method ReadRows(ids: seq<nat>, missed: seq<nat>, before: map<nat, Video>, ghost start: L1, ghost unread: set<nat>,
                    lost: set<nat>)
      returns (found: map<nat, Video>)
      requires Valid() && Progress(ids, start, before, missed) && forall id :: id in missed <==> id in unread
      modifies this`l1, this`l2
      ensures Valid() && found == Visible(start, rows, now, ids)
      ensures Renewed(old(l1), l1, rows, now, unread) && Stored(old(l2), l2, rows, unread - lost)
    {
      var batch := GetVideosByIDs(rows, missed);
      SelectedRows(rows, missed);
      found := BackfillAll(batch, before, lost);
      FoundAnswers(start, rows, now, ids, before, batch);
      forall id | id in missed && id in rows ensures id in found {
        assert rows[id] in batch;
      }
      Complete(ids, start, found, missed);
      FilledCaches(old(l1), old(l2), missed, unread, lost);
    }

    method BackfillAll(batch: seq<Video>, before: map<nat, Video>, lost: set<nat>) returns (found: map<nat, Video>)
      modifies this`l1, this`l2
      ensures l1 == FilledL1(old(l1), batch, now) && l2 == FilledL2(old(l2), batch, lost)
      ensures found == FoundAll(before, batch)
    {
      found := before;
      for i := 0 to |batch|
        invariant l1 == FilledL1(old(l1), batch[..i], now) && l2 == FilledL2(old(l2), batch[..i], lost)
        invariant found == FoundAll(before, batch[..i])
      {
        var v := batch[i];
        assert batch[..i + 1] == batch[..i] + [v];
        FilledSnoc(old(l1), old(l2), batch[..i], v, now, lost);
        FoundSnoc(before, batch[..i], v);
        found := found[v.id := v];
        Backfill(v, lost);
      }
      assert batch[..|batch|] == batch;
    }

    /** What the backfill of the rows of these ids leaves. */
    lemma FilledCaches(old1: L1, old2: L2, missed: seq<nat>, unread: set<nat>, lost: set<nat>)
      requires RowsOk(rows) && Coherent(old2, rows) && Keyed(old1) && forall id :: id in missed <==> id in unread
      requires var batch := GetVideosByIDs(rows, missed);
        l1 == FilledL1(old1, batch, now) && l2 == FilledL2(old2, batch, lost)
      ensures Valid()
      ensures Renewed(old1, l1, rows, now, unread) && Stored(old2, l2, rows, unread - lost)
    {
      var batch := GetVideosByIDs(rows, missed);
      SelectedRows(rows, missed);
      FilledIsRenewed(old1, batch, rows, now);
      FilledIsStored(old2, batch, rows, lost);
      SameRenewed(old1, l1, rows, now, IdsOf(batch), unread);
      SameStored(old2, l2, rows, IdsOf(batch) - lost, unread - lost);
      RenewedKeeps(old1, l1, rows, now, unread);
      StoredKeeps(old2, l2, rows, unread - lost);
    }

    method Collect(ids: seq<nat>, found: map<nat, Video>) returns (result: seq<Video>)
      ensures result == Select(ids, found)
    {
      result := [];
      for i := 0 to |ids|
        invariant result == Select(ids[..i], found)
      {
        assert ids[..i + 1][..i] == ids[..i];
        if ids[i] in found {
          result := result + [found[ids[i]]];
        }
      }
      assert ids[..|ids|] == ids;
    }
  }

  lemma {:induction false} SelectSpec(ids: seq<nat>, found: map<nat, Video>)
    ensures forall v :: v in Select(ids, found) <==> exists id :: id in ids && id in found && found[id] == v
  {
    if ids != [] {
      SelectSpec(ids[..|ids| - 1], found);
      assert ids == ids[..|ids| - 1] + [ids[|ids| - 1]];
    }
  }

  lemma SelectedRows(rows: Rows, ids: seq<nat>)
    requires RowsOk(rows)
    ensures AreRows(GetVideosByIDs(rows, ids), rows)
    ensures forall v :: v in GetVideosByIDs(rows, ids) ==> v.id in ids
    ensures forall id :: id in rows ==> (id in IdsOf(GetVideosByIDs(rows, ids)) <==> id in ids)
    ensures forall id :: id in rows && id in ids ==> rows[id] in GetVideosByIDs(rows, ids)
  {
    SelectSpec(ids, rows);
  }

  /** Request order: what is found for an id stands after what is found for the ids before it. */
  lemma {:induction false} SelectAt(ids: seq<nat>, found: map<nat, Video>, k: nat)
    requires k < |ids| && ids[k] in found
    ensures |Select(ids[..k], found)| < |Select(ids, found)|
    ensures Select(ids, found)[|Select(ids[..k], found)|] == found[ids[k]]
  {
    var n := |ids| - 1;
    if k < n {
      SelectAt(ids[..n], found, k);
      assert ids[..n][..k] == ids[..k];
    }
  }

  lemma {:induction false} SelectSame(ids: seq<nat>, f: map<nat, Video>, g: map<nat, Video>)
    requires forall id :: id in ids ==> (id in f <==> id in g) && (id in f ==> f[id] == g[id])
    ensures Select(ids, f) == Select(ids, g)
  {
    if ids != [] {
      assert ids[|ids| - 1] in ids;
      SelectSame(ids[..|ids| - 1], f, g);
    }
  }

  /** A local cache with nothing out of date in it. */
  ghost predicate Fresh(l1: L1, rows: Rows, now: int) {
    forall id :: Live(l1, id, now) ==> id in rows && l1[id].entity == ToEntity(rows[id])
  }

  /** With a local cache that agrees too, a batch read is the database's batch query: same videos, same order,
      repeats and gaps included, whichever levels answered. */
  lemma BatchEqualsQuery(l1: L1, rows: Rows, now: int, ids: seq<nat>)
    requires RowsOk(rows) && Fresh(l1, rows, now)
    ensures Select(ids, Visible(l1, rows, now, ids)) == GetVideosByIDs(rows, ids)
  {
    forall id | id in ids && id in rows ensures ToVideo(ToEntity(rows[id])) == rows[id] {
      EntityRoundTrip(rows[id]);
    }
    SelectSame(ids, Visible(l1, rows, now, ids), rows);
  }

  /** Freshness survives a read: what it leaves behind is old and fresh, or new and current. */
  lemma RefillKeepsFresh(before: L1, after: L1, rows: Rows, now: int, ids: set<nat>)
    requires Fresh(before, rows, now) && Renewed(before, after, rows, now, ids)
    ensures Fresh(after, rows, now)
  {}
}
