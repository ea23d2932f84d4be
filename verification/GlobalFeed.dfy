/** The global feed: newest videos from the bounded timeline, older ones from the database,
    stitched into one page. `ListFromDB` is what every page is measured against. */
module GlobalFeed {
  import opened Sequences
  import opened CursorCodec
  import opened SortedSets

  /** The columns of a video that the feed orders and pages by; `createdAt` in milliseconds. */
  datatype Item = Item(id: nat, createdAt: int)

  /** Which of the outside calls fail during one request. */
  datatype Faults = Faults(ensure: bool, tail: bool, range: bool, entities: bool, db: bool)

  datatype Batch = Batch(items: seq<Item>, hasMore: bool) | Failed

  datatype Response = Listed(items: seq<Item>, next: string) | BadCursor | Unavailable

  // ---- The database: rows in ORDER BY created_at DESC, id DESC ----------------------------

  predicate Newer(a: Item, b: Item) {
    a.createdAt > b.createdAt || (a.createdAt == b.createdAt && a.id > b.id)
  }

  predicate Before(cursor: Option<Cursor>, v: Item) {
    cursor.None? || v.createdAt < cursor.value.millis || (v.createdAt == cursor.value.millis && v.id < cursor.value.id)
  }

  function Older(cursor: Option<Cursor>): Item -> bool {
    (v: Item) => Before(cursor, v)
  }

  function ListLatest(rows: seq<Item>, cursor: Option<Cursor>, limit: nat): seq<Item> {
    Take(Filter(rows, Older(cursor)), limit)
  }

  function ListFromDB(rows: seq<Item>, cursor: Option<Cursor>, limit: nat, db: bool): Batch {
    var vs := ListLatest(rows, cursor, limit + 1);
    if db then Failed else Batch(Take(vs, limit), |vs| > limit)
  }

  // ---- The timeline -----------------------------------------------------------------------

  function Entries(vs: seq<Item>): seq<ZMember> {
    seq(|vs|, i requires 0 <= i < |vs| => ZMember(vs[i].createdAt, vs[i].id))
  }

  /** An empty timeline is refilled from the newest rows; an empty database leaves a sentinel. */
  function Rebuilt(rows: seq<Item>, cap: nat): seq<ZMember> {
    var members := Entries(ListLatest(rows, None, cap));
    AddAll([], if members == [] then [ZMember(0, 0)] else members)
  }

  function Ensured(timeline: seq<ZMember>, rows: seq<Item>, cap: nat, ensure: bool): seq<ZMember> {
    if ensure || timeline != [] then timeline else Rebuilt(rows, cap)
  }

  /** The ids behind a list of members, without the sentinel. */
  function VideoIds(members: seq<ZMember>): seq<nat> {
    if members == [] then []
    else
      var n := |members| - 1;
      VideoIds(members[..n]) + if members[n].member == 0 then [] else [members[n].member]
  }

  /** Entities for the ids that have one, in the order asked for. */
  function GetByIDs(entities: map<nat, Item>, ids: seq<nat>): seq<Item> {
    if ids == [] then []
    else
      var n := |ids| - 1;
      GetByIDs(entities, ids[..n]) + if ids[n] in entities then [entities[ids[n]]] else []
  }

  function CursorOf(v: Item): Cursor {
    Cursor(v.createdAt, v.id)
  }

  // ---- One page ---------------------------------------------------------------------------

  function RequestTime(cursor: Option<Cursor>, now: int): int {
    if cursor.Some? then cursor.value.millis else now
  }

  function RequestID(cursor: Option<Cursor>): nat {
    if cursor.Some? then cursor.value.id else 0
  }

  /** Tops a short hot page up from the database, below the last hot item. */
  function Stitched(rows: seq<Item>, hot: seq<Item>, cursor: Option<Cursor>, limit: nat): Batch
    requires |hot| <= limit
  {
    var below := if hot == [] then cursor else Some(CursorOf(hot[|hot| - 1]));
    var remain := limit - |hot|;
    var cold := ListLatest(rows, below, remain + 1);
    var items := hot + Take(cold, remain);
    Batch(items, |cold| > remain || |items| == limit)
  }

  lemma {:induction false} IdsAreFewer(members: seq<ZMember>, entities: map<nat, Item>)
    ensures |VideoIds(members)| <= |members|
    ensures |GetByIDs(entities, VideoIds(members))| <= |members|
  {
    if members != [] {
      IdsAreFewer(members[..|members| - 1], entities);
      EntitiesAreFewer(entities, VideoIds(members));
    }
  }

  lemma {:induction false} EntitiesAreFewer(entities: map<nat, Item>, ids: seq<nat>)
    ensures |GetByIDs(entities, ids)| <= |ids|
  {
    if ids != [] {
      EntitiesAreFewer(entities, ids[..|ids| - 1]);
    }
  }

  /** The page once the hot members are hydrated: `asked` tells whether there were ids to hydrate. */
  function Assembled(vs: seq<Item>, asked: bool, hotMore: bool, rows: seq<Item>,
                     cursor: Option<Cursor>, limit: nat, db: bool): Batch
    requires |vs| <= limit
  {
    if asked && vs == [] then ListFromDB(rows, cursor, limit, db)
    else if !hotMore && |vs| < limit then
      if db then Failed else Stitched(rows, vs, cursor, limit)
    else Batch(vs, hotMore || |vs| == limit)
  }

  /** The page behind a hot-range read of up to `limit + 1` members. */
  function FromHot(hot: seq<ZMember>, rows: seq<Item>, entities: map<nat, Item>,
                   cursor: Option<Cursor>, limit: nat, faults: Faults): Batch
  {
    var members := Take(hot, limit);
    var ids := VideoIds(members);
    IdsAreFewer(members, entities);
    if ids != [] && faults.entities then Failed
    else Assembled(GetByIDs(entities, ids), ids != [], |hot| > limit, rows, cursor, limit, faults.db)
  }

  /** The whole decision, on a timeline that has been ensured. */
  function Page(timeline: seq<ZMember>, rows: seq<Item>, entities: map<nat, Item>,
                now: int, cursor: Option<Cursor>, limit: nat, faults: Faults): Batch
  {
    if faults.ensure || faults.tail || timeline == [] || RequestTime(cursor, now) <= timeline[0].score || faults.range
    then ListFromDB(rows, cursor, limit, faults.db)
    else FromHot(RevRangeByScore(timeline, RequestTime(cursor, now), RequestID(cursor), limit + 1),
                 rows, entities, cursor, limit, faults)
  }

  /** Whatever is asked of whatever there is: only the database and the entity reader can fail a page, and a page
      keeps to its limit. */
  lemma PageIsServed(timeline: seq<ZMember>, rows: seq<Item>, entities: map<nat, Item>,
                     now: int, cursor: Option<Cursor>, limit: nat, faults: Faults)
    ensures var b := Page(timeline, rows, entities, now, cursor, limit, faults);
      && (b == Failed ==> faults.db || faults.entities)
      && (b.Batch? ==> |b.items| <= limit)
  {
    var hot := RevRangeByScore(timeline, RequestTime(cursor, now), RequestID(cursor), limit + 1);
    HotPageIsServed(hot, rows, entities, cursor, limit, faults);
  }

  lemma HotPageIsServed(hot: seq<ZMember>, rows: seq<Item>, entities: map<nat, Item>,
                        cursor: Option<Cursor>, limit: nat, faults: Faults)
    ensures var b := FromHot(hot, rows, entities, cursor, limit, faults);
      && (b == Failed ==> faults.db || faults.entities)
      && (b.Batch? ==> |b.items| <= limit)
  {
    IdsAreFewer(Take(hot, limit), entities);
  }

  // ---- The request around it --------------------------------------------------------------

  function PageSize(limit: int): nat {
    if limit <= 0 || limit > 100 then 20 else limit
  }

  function NextCursor(items: seq<Item>, hasMore: bool): string {
    if !hasMore || items == [] then "" else EncodeCursor(CursorOf(items[|items| - 1]))
  }

  function Respond(b: Batch): Response {
    match b
    case Failed => Unavailable
    case Batch(items, hasMore) => Listed(items, NextCursor(items, hasMore))
  }

  /** What a request with this cursor text answers; the second result is the timeline it leaves behind. */
  function Answer(timeline: seq<ZMember>, rows: seq<Item>, entities: map<nat, Item>, cap: nat,
                  now: int, text: string, limit: int, faults: Faults): (Response, seq<ZMember>)
  {
    var cursor := if text == "" then None else DecodeCursor(text);
    if text != "" && cursor.None? then (BadCursor, timeline)
    else
      var ensured := Ensured(timeline, rows, cap, faults.ensure);
      (Respond(Page(ensured, rows, entities, now, cursor, PageSize(limit), faults)), ensured)
  }

  // ---- The service ------------------------------------------------------------------------

  class FeedService {
    const timeline: SortedSet
    const cap: nat
    var rows: seq<Item>
    var entities: map<nat, Item>

    constructor (timeline: SortedSet, cap: nat)
      ensures this.timeline == timeline && this.cap == cap && rows == [] && entities == map[]
    {
      this.timeline, this.cap := timeline, cap;
      rows, entities := [], map[];
    }

    /** Rebuilds an empty timeline; a failure leaves it alone. */
    method EnsureTimeline(fails: bool) returns (ok: bool)
      modifies timeline
      ensures ok == !fails
      ensures timeline.entries == Ensured(old(timeline.entries), rows, cap, fails)
    {
      if fails {
        return false;
      }
      if |timeline.entries| > 0 {
        return true;
      }
      var vs := ListLatest(rows, None, cap);
      var members: seq<ZMember> := [];
      for i := 0 to |vs|
        invariant members == Entries(vs[..i])
      {
        members := members + [ZMember(vs[i].createdAt, vs[i].id)];
      }
      assert vs[..|vs|] == vs;
      if |members| == 0 {
        members := members + [ZMember(0, 0)];
      }
      timeline.ZAddBatch(members);
      return true;
    }

    /** One page of the feed. */
    method GlobalFetch(cursor: Option<Cursor>, limit: nat, now: int, faults: Faults) returns (b: Batch)
      modifies timeline
      ensures timeline.entries == Ensured(old(timeline.entries), rows, cap, faults.ensure)
      ensures b == Page(timeline.entries, rows, entities, now, cursor, limit, faults)
      ensures !faults.db && !faults.entities ==> b.Batch?
    {
      PageIsServed(Ensured(timeline.entries, rows, cap, faults.ensure), rows, entities, now, cursor, limit, faults);
      var ready := EnsureTimeline(faults.ensure);
      if !ready {
        return ListFromDB(rows, cursor, limit, faults.db);
      }
      if faults.tail || |timeline.entries| == 0 {
        return ListFromDB(rows, cursor, limit, faults.db);
      }
      var watermark := timeline.entries[0].score;
      var reqTime := now;
      if cursor.Some? {
        reqTime := cursor.value.millis;
      }
      if reqTime <= watermark {
        return ListFromDB(rows, cursor, limit, faults.db);
      }
      var curID: nat := 0;
      if cursor.Some? {
        curID := cursor.value.id;
      }
      if faults.range {
        return ListFromDB(rows, cursor, limit, faults.db);
      }
      var hot := timeline.ZRevRangeByScore(reqTime, curID, limit + 1);
      b := HotPage(hot, cursor, limit, faults);
    }

    /** Member ids in order, the sentinel skipped. */
    method ParseIDs(members: seq<ZMember>) returns (ids: seq<nat>)
      ensures ids == VideoIds(members)
    {
      ids := [];
      for i := 0 to |members|
        invariant ids == VideoIds(members[..i])
      {
        assert members[..i + 1][..i] == members[..i];
        if members[i].member == 0 {
          continue;
        }
        ids := ids + [members[i].member];
      }
      assert members[..|members|] == members;
    }

    /** The page behind a hot-range read: parse ids, hydrate, fall back or stitch. */
    method HotPage(hot: seq<ZMember>, cursor: Option<Cursor>, limit: nat, faults: Faults) returns (b: Batch)
      ensures b == FromHot(hot, rows, entities, cursor, limit, faults)
      ensures !faults.db && !faults.entities ==> b.Batch?
    {
      var hotMore := |hot| > limit;
      var members := hot;
      if hotMore {
        members := members[..limit];
      }
      assert members == Take(hot, limit);
      var ids := ParseIDs(members);
      if |ids| > 0 && faults.entities {
        return Failed;
      }
      var vs := GetByIDs(entities, ids);
      IdsAreFewer(members, entities);
      if |ids| > 0 && |vs| == 0 {
        return ListFromDB(rows, cursor, limit, faults.db);
      }
      if !hotMore && |vs| < limit {
        if faults.db {
          return Failed;
        }
        b := Stitch(vs, cursor, limit);
        return;
      }
      return Batch(vs, hotMore || |vs| == limit);
    }

    /** The cold part: what is missing from the page, read below its last hot item. */
    method Stitch(hot: seq<Item>, cursor: Option<Cursor>, limit: nat) returns (b: Batch)
      requires |hot| < limit
      ensures b == Stitched(rows, hot, cursor, limit)
    {
      var below := cursor;
      if |hot| > 0 {
        below := Some(CursorOf(hot[|hot| - 1]));
      }
      var remain := limit - |hot|;
      var cold := ListLatest(rows, below, remain + 1);
      var coldMore := |cold| > remain;
      if coldMore {
        cold := cold[..remain];
      }
      var vs := hot + cold;
      return Batch(vs, coldMore || |vs| == limit);
    }

    /** A request: limit and cursor text are checked first, the next cursor is encoded last. */
    method GlobalFeed(text: string, limit: int, now: int, faults: Faults) returns (r: Response)
      modifies timeline
      ensures (r, timeline.entries) == Answer(old(timeline.entries), rows, entities, cap, now, text, limit, faults)
      ensures r == BadCursor <==> text != "" && DecodeCursor(text) == None
      ensures !faults.db && !faults.entities && (text == "" || DecodeCursor(text).Some?) ==> r.Listed?
      ensures r.Listed? ==> |r.items| <= if 1 <= limit <= 100 then limit else 20
    {
      var size := limit;
      if limit <= 0 || limit > 100 {
        size := 20;
      }
      var cursor := None;
      if text != "" {
        cursor := DecodeCursor(text);
        if cursor.None? {
          return BadCursor;
        }
      }
      var b := GlobalFetch(cursor, size, now, faults);
      PageIsServed(timeline.entries, rows, entities, now, cursor, size, faults);
      return Respond(b);
    }
  }
}
