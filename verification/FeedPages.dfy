/** What one page of the global feed promises, whatever the timeline happens to hold: it refines
    the plain database listing. */
module FeedPages {
  import opened Sequences
  import opened CursorCodec
  import opened SortedSets
  import opened GlobalFeed

  /** A committed video and the time of its outbox row, which becomes its score when it is delivered. */
  datatype Publication = Publication(item: Item, eventTime: int)

  /** Publish order: ids and times grow together, and an event's time falls before the next video's. */
  ghost predicate LogOk(log: seq<Publication>) {
    && (forall i :: 0 <= i < |log| ==>
          && 0 < log[i].item.id && 0 < log[i].item.createdAt <= log[i].eventTime
          && Representable(CursorOf(log[i].item)))
    && (forall i, j :: 0 <= i < j < |log| ==>
          log[i].item.id < log[j].item.id && log[i].eventTime < log[j].item.createdAt)
  }

  ghost predicate Logged(log: seq<Publication>, v: Item) {
    exists i :: 0 <= i < |log| && log[i].item == v
  }

  /** A timeline entry is the sentinel or a published video, scored between its two times. */
  ghost predicate EntryOk(log: seq<Publication>, e: ZMember) {
    || e == ZMember(0, 0)
    || exists i :: 0 <= i < |log| && log[i].item.id == e.member && log[i].item.createdAt <= e.score <= log[i].eventTime
  }

  /** Scores and ids ascend together. */
  ghost predicate Ascending(t: seq<ZMember>) {
    forall i, j :: 0 <= i < j < |t| ==> t[i].member < t[j].member && t[i].score < t[j].score
  }

  ghost predicate TimelineOk(log: seq<Publication>, t: seq<ZMember>) {
    Ascending(t) && forall i :: 0 <= i < |t| ==> EntryOk(log, t[i])
  }

  ghost predicate NewestFirst(vs: seq<Item>) {
    forall i, j :: 0 <= i < j < |vs| ==> Newer(vs[i], vs[j])
  }

  ghost predicate AllLogged(log: seq<Publication>, vs: seq<Item>) {
    forall v :: v in vs ==> Logged(log, v)
  }

  ghost predicate RowsOk(log: seq<Publication>, rows: seq<Item>) {
    NewestFirst(rows) && AllLogged(log, rows)
  }

  /** What the reader can return: every row, and perhaps rows deleted since they were cached. */
  ghost predicate EntitiesOk(log: seq<Publication>, rows: seq<Item>, entities: map<nat, Item>) {
    && (forall id :: id in entities ==> entities[id].id == id && Logged(log, entities[id]))
    && (forall v :: v in rows ==> v.id in entities && entities[v.id] == v)
  }

  /** Every row at or above the watermark is in the timeline, unless its event is still on the way. */
  ghost predicate Covered(log: seq<Publication>, next: nat, rows: seq<Item>, t: seq<ZMember>) {
    t != [] ==> forall i :: 0 <= i < next && i < |log| && log[i].item in rows && log[i].item.createdAt >= t[0].score
                  ==> HasMember(t, log[i].item.id)
  }

  /** Delivered row `i` is missing from the timeline although the video at `p`, which is below it, is there. */
  ghost predicate Shadows(log: seq<Publication>, next: nat, rows: seq<Item>, t: seq<ZMember>, i: int, p: int) {
    && 0 <= i < next && i < |log| && log[i].item in rows && !HasMember(t, log[i].item.id)
    && 0 <= p < |t| && 0 < t[p].member < log[i].item.id
  }

  /** Then a page that reaches that video from above steps over the row. */
  ghost predicate Shadowed(log: seq<Publication>, next: nat, rows: seq<Item>, t: seq<ZMember>) {
    exists i, p :: Shadows(log, next, rows, t, i, p)
  }

  /** A first request comes after everything published; a later one carries a cursor from an earlier page. */
  ghost predicate RequestOk(log: seq<Publication>, cursor: Option<Cursor>, now: int) {
    match cursor
    case None => 0 < now && forall i :: 0 <= i < |log| ==> log[i].eventTime < now
    case Some(c) => exists i :: 0 <= i < |log| && CursorOf(log[i].item) == c
  }

  /** A delivered row that a request with this cursor is owed. */
  ghost predicate Due(log: seq<Publication>, next: nat, rows: seq<Item>, cursor: Option<Cursor>, i: int) {
    0 <= i < next && i < |log| && log[i].item in rows && Before(cursor, log[i].item)
  }

  /** The page: strictly descending, below the cursor, within the limit; and every delivered row
      below the cursor is on it, or further down and a cursor leads there. */
  ghost predicate PageOk(log: seq<Publication>, next: nat, rows: seq<Item>, cursor: Option<Cursor>,
                         limit: nat, items: seq<Item>, hasMore: bool)
  {
    && NewestFirst(items) && |items| <= limit
    && (forall v :: v in items ==> Logged(log, v) && Before(cursor, v))
    && (forall i :: Due(log, next, rows, cursor, i) ==>
          || log[i].item in items
          || (hasMore && items != [] && Newer(items[|items| - 1], log[i].item)))
  }

  // ---- Order in the log: ids, creation times and scores agree -------------------------------

  lemma LoggedOrder(log: seq<Publication>, a: Item, b: Item)
    requires LogOk(log) && Logged(log, a) && Logged(log, b)
    ensures Newer(a, b) <==> a.id > b.id
    ensures a.createdAt < b.createdAt <==> a.id < b.id
    ensures a.id == b.id ==> a == b
  {}

  lemma EntryOrder(log: seq<Publication>, e: ZMember, v: Item)
    requires LogOk(log) && EntryOk(log, e) && Logged(log, v)
    ensures e.score < v.createdAt <==> e.member < v.id
  {}

  /** In rank order, ids ascend with the scores. */
  lemma RankedAscends(log: seq<Publication>, t: seq<ZMember>)
    requires LogOk(log) && Ranked(t) && forall i :: 0 <= i < |t| ==> EntryOk(log, t[i])
    ensures TimelineOk(log, t)
  {}

  // ---- The database page ------------------------------------------------------------------

  lemma {:induction false} FilterNewestFirst(vs: seq<Item>, p: Item -> bool)
    requires NewestFirst(vs)
    ensures NewestFirst(Filter(vs, p))
  {
    if vs != [] {
      FilterNewestFirst(vs[1..], p);
      var rest := Filter(vs[1..], p);
      forall i | 0 <= i < |rest| ensures Newer(vs[0], rest[i]) {
        FilterIn(vs[1..], p, rest[i]);
        assert rest[i] in vs[1..];
      }
    }
  }

  /** A limited listing is descending, consists of rows below the cursor, and leaves out only older ones. */
  lemma ListLatestSpec(rows: seq<Item>, cursor: Option<Cursor>, limit: nat)
    requires NewestFirst(rows)
    ensures var vs := ListLatest(rows, cursor, limit);
      && NewestFirst(vs) && |vs| <= limit
      && (forall v :: v in vs ==> v in rows && Before(cursor, v))
      && (forall v :: v in rows && Before(cursor, v) && v !in vs ==>
            |vs| == limit < |Filter(rows, Older(cursor))| && forall u :: u in vs ==> Newer(u, v))
  {
    var all := Filter(rows, Older(cursor));
    var vs := Take(all, limit);
    FilterNewestFirst(rows, Older(cursor));
    forall v ensures v in all <==> v in rows && Before(cursor, v) { FilterIn(rows, Older(cursor), v); }
    forall v | v in vs ensures v in all {}
    forall v | v in all && v !in vs ensures limit < |all| && forall u :: u in vs ==> Newer(u, v) {
      var k :| 0 <= k < |all| && all[k] == v;
      assert forall j :: 0 <= j < |vs| ==> all[j] == vs[j];
      assert |vs| <= k;
    }
  }

  /** The page from the database alone holds the newest rows below the cursor, and announces more exactly when some
      row below the cursor is not on it. */
  lemma DBPageIsExact(rows: seq<Item>, cursor: Option<Cursor>, limit: nat)
    requires NewestFirst(rows)
    ensures var b := ListFromDB(rows, cursor, limit, false);
      && (forall v :: v in b.items ==> v in rows && Before(cursor, v))
      && (b.hasMore <==> exists v :: v in rows && Before(cursor, v) && v !in b.items)
      && (b.hasMore ==> |b.items| == limit)
  {
    var all := Filter(rows, Older(cursor));
    ListLatestSpec(rows, cursor, limit);
    FilterNewestFirst(rows, Older(cursor));
    forall v ensures v in all <==> v in rows && Before(cursor, v) { FilterIn(rows, Older(cursor), v); }
    TakeTake(all, limit + 1, limit);
    if limit < |all| {
      var v := all[limit];
      assert v in all;
      assert v !in all[..limit];
    }
  }

  lemma DBPageOk(log: seq<Publication>, next: nat, rows: seq<Item>, cursor: Option<Cursor>, limit: nat)
    requires LogOk(log) && RowsOk(log, rows) && 0 < limit
    ensures var b := ListFromDB(rows, cursor, limit, false);
      PageOk(log, next, rows, cursor, limit, b.items, b.hasMore)
  {
    var b := ListFromDB(rows, cursor, limit, false);
    ListLatestSpec(rows, cursor, limit);
    ListLatestSpec(rows, cursor, limit + 1);
    assert b.items == ListLatest(rows, cursor, limit);
  }

  // ---- The hot range ----------------------------------------------------------------------

  predicate IDBelow(cursor: Option<Cursor>, id: nat) {
    cursor.None? || id < cursor.value.id
  }

  /** The first `k` entries are those with ids below the cursor's. */
  ghost predicate HotPrefix(t: seq<ZMember>, cursor: Option<Cursor>, k: nat) {
    k <= |t| && forall i :: 0 <= i < |t| ==> (i < k <==> IDBelow(cursor, t[i].member))
  }

  /** A cursor that some earlier page handed out. */
  ghost predicate Issued(log: seq<Publication>, cursor: Option<Cursor>) {
    cursor.Some? ==> exists i :: 0 <= i < |log| && CursorOf(log[i].item) == cursor.value
  }

  lemma CountHot(log: seq<Publication>, t: seq<ZMember>, cursor: Option<Cursor>, now: int)
    requires LogOk(log) && TimelineOk(log, t) && RequestOk(log, cursor, now)
    ensures HotPrefix(t, cursor, CountAtMost(t, RequestTime(cursor, now) - 1))
    ensures Issued(log, cursor)
  {}

  /** At most one entry is scored exactly at the bound. */
  lemma OneAtBound(log: seq<Publication>, t: seq<ZMember>, r: int)
    requires LogOk(log) && TimelineOk(log, t)
    ensures CountAtMost(t, r - 1) <= CountAtMost(t, r) <= CountAtMost(t, r - 1) + 1
  {
    var k, m := CountAtMost(t, r - 1), CountAtMost(t, r);
    assert m < |t| ==> t[m].score > r;
    assert 0 < m ==> t[m - 1].score <= r;
    assert k < |t| ==> t[k].score >= r;
  }

  lemma KeptOnly(t: seq<ZMember>, cursor: Option<Cursor>, r: int, n: nat)
    requires 0 < r && HotPrefix(t, cursor, CountAtMost(t, r - 1))
    ensures var kept := Take(Reverse(t[..CountAtMost(t, r - 1)]), n);
      Filter(kept, KeepsBelow(r, RequestID(cursor))) == kept
  {
    var k := CountAtMost(t, r - 1);
    var kept := Take(Reverse(t[..k]), n);
    forall e | e in kept ensures KeepsBelow(r, RequestID(cursor))(e) {
      var j :| 0 <= j < |kept| && kept[j] == e;
      assert e == t[k - 1 - j];
    }
    FilterAll(kept, KeepsBelow(r, RequestID(cursor)));
  }

  /** What is fetched: the hot prefix from its top, after at most one entry at the bound. */
  lemma FetchedHot(t: seq<ZMember>, r: int, limit: nat, k: nat)
    requires 0 < r && k <= CountAtMost(t, r) <= k + 1
    ensures Fetched(t, r, limit + 1) ==
      if CountAtMost(t, r) == k then Take(Reverse(t[..k]), 2 * (limit + 1))
      else [t[k]] + Take(Reverse(t[..k]), 2 * limit + 1)
  {
    if CountAtMost(t, r) != k {
      ReversePrefix(t, k, 2 * limit + 1);
    }
  }

  lemma FilteredHot(log: seq<Publication>, t: seq<ZMember>, cursor: Option<Cursor>, r: int, limit: nat) returns (n: nat)
    requires LogOk(log) && TimelineOk(log, t) && 0 < r
    requires HotPrefix(t, cursor, CountAtMost(t, r - 1))
    ensures limit + 1 <= n
    ensures Filter(Fetched(t, r, limit + 1), KeepsBelow(r, RequestID(cursor))) ==
      Take(Reverse(t[..CountAtMost(t, r - 1)]), n)
  {
    var k, keep := CountAtMost(t, r - 1), KeepsBelow(r, RequestID(cursor));
    OneAtBound(log, t, r);
    FetchedHot(t, r, limit, k);
    n := if CountAtMost(t, r) == k then 2 * (limit + 1) else 2 * limit + 1;
    KeptOnly(t, cursor, r, n);
    if CountAtMost(t, r) != k {
      assert t[k].score == r && !keep(t[k]);
      FilterSkips(t[k], Take(Reverse(t[..k]), n), keep);
    }
  }

  /** The over-fetch is enough: after the filter, the page-and-one newest members below the cursor remain. */
  lemma HotRange(log: seq<Publication>, t: seq<ZMember>, cursor: Option<Cursor>, r: int, limit: nat)
    requires LogOk(log) && TimelineOk(log, t) && 0 < r
    requires HotPrefix(t, cursor, CountAtMost(t, r - 1))
    ensures RevRangeByScore(t, r, RequestID(cursor), limit + 1) == Take(Reverse(t[..CountAtMost(t, r - 1)]), limit + 1)
  {
    var n := FilteredHot(log, t, cursor, r, limit);
    TakeTake(Reverse(t[..CountAtMost(t, r - 1)]), n, limit + 1);
  }

  predicate Descending(ids: seq<nat>) {
    forall i, j :: 0 <= i < j < |ids| ==> ids[i] > ids[j]
  }

  lemma {:induction false} VideoIdsSpec(members: seq<ZMember>)
    ensures forall id :: id in VideoIds(members) <==> id != 0 && HasMember(members, id)
  {
    if members != [] {
      var n := |members| - 1;
      VideoIdsSpec(members[..n]);
      var front := VideoIds(members[..n]);
      forall id ensures id in VideoIds(members) <==> id != 0 && HasMember(members, id) {
        if HasMember(members[..n], id) {
          var i :| 0 <= i < n && members[..n][i].member == id;
          assert members[i].member == id;
        }
        if HasMember(members, id) && members[n].member != id {
          var i :| 0 <= i < |members| && members[i].member == id;
          assert members[..n][i].member == id;
        }
      }
    }
  }

  lemma {:induction false} VideoIdsDescend(members: seq<ZMember>)
    requires forall i, j :: 0 <= i < j < |members| ==> members[i].member > members[j].member
    ensures Descending(VideoIds(members))
  {
    if members != [] {
      var n := |members| - 1;
      VideoIdsDescend(members[..n]);
      VideoIdsSpec(members[..n]);
      var front := VideoIds(members[..n]);
      forall i | 0 <= i < |front| ensures front[i] > members[n].member {
        assert front[i] in front && HasMember(members[..n], front[i]);
      }
    }
  }

  /** The hydrated page: exactly the readable entities among the ids, still in descending order. */
  lemma {:induction false} GetByIDsSpec(log: seq<Publication>, entities: map<nat, Item>, ids: seq<nat>)
    requires LogOk(log)
    requires forall id :: id in entities ==> entities[id].id == id && Logged(log, entities[id])
    requires Descending(ids)
    ensures forall v :: v in GetByIDs(entities, ids) <==> v.id in ids && v.id in entities && entities[v.id] == v
    ensures NewestFirst(GetByIDs(entities, ids))
  {
    if ids != [] {
      var n := |ids| - 1;
      GetByIDsSpec(log, entities, ids[..n]);
      assert ids == ids[..n] + [ids[n]];
      var front := GetByIDs(entities, ids[..n]);
      if ids[n] in entities {
        forall i | 0 <= i < |front| ensures Newer(front[i], entities[ids[n]]) {
          assert front[i] in front;
          LoggedOrder(log, front[i], entities[ids[n]]);
        }
      }
    }
  }

  lemma MemberIn(t: seq<ZMember>, k: nat, limit: nat, i: nat)
    requires k <= |t| && i < k && k - limit <= i
    ensures HasMember(Take(Reverse(t[..k]), limit), t[i].member)
  {
    assert Take(Reverse(t[..k]), limit)[k - 1 - i] == t[i];
  }

  /** No due row is skipped above the last of these items. */
  ghost predicate NoGap(log: seq<Publication>, next: nat, rows: seq<Item>, cursor: Option<Cursor>, vs: seq<Item>) {
    vs != [] ==> forall i :: Due(log, next, rows, cursor, i) && !Newer(vs[|vs| - 1], log[i].item) ==> log[i].item in vs
  }

  lemma MembersDescend(t: seq<ZMember>, k: nat, limit: nat)
    requires Ascending(t) && k <= |t|
    ensures var members := Take(Reverse(t[..k]), limit);
      forall i, j :: 0 <= i < j < |members| ==> members[i].member > members[j].member
  {}

  lemma HotIsBelow(log: seq<Publication>, t: seq<ZMember>, cursor: Option<Cursor>, k: nat, limit: nat, v: Item)
    requires LogOk(log) && HotPrefix(t, cursor, k) && Issued(log, cursor)
    requires Logged(log, v) && HasMember(Take(Reverse(t[..k]), limit), v.id)
    ensures Before(cursor, v)
  {}

  /** The hot part of a page, before anything is read from the database. */
  lemma HotItems(log: seq<Publication>, next: nat, rows: seq<Item>, entities: map<nat, Item>, t: seq<ZMember>,
                 cursor: Option<Cursor>, k: nat, limit: nat)
    requires LogOk(log) && RowsOk(log, rows) && EntitiesOk(log, rows, entities) && TimelineOk(log, t)
    requires !Shadowed(log, next, rows, t) && HotPrefix(t, cursor, k) && Issued(log, cursor)
    ensures var vs := GetByIDs(entities, VideoIds(Take(Reverse(t[..k]), limit)));
      NewestFirst(vs) && (forall v :: v in vs ==> Logged(log, v) && Before(cursor, v)) &&
      NoGap(log, next, rows, cursor, vs)
  {
    var members := Take(Reverse(t[..k]), limit);
    var ids := VideoIds(members);
    var vs := GetByIDs(entities, ids);
    MembersDescend(t, k, limit);
    VideoIdsSpec(members);
    VideoIdsDescend(members);
    GetByIDsSpec(log, entities, ids);
    forall v | v in vs ensures Logged(log, v) && Before(cursor, v) {
      HotIsBelow(log, t, cursor, k, limit, v);
    }
    forall i | Due(log, next, rows, cursor, i) && vs != [] && !Newer(vs[|vs| - 1], log[i].item)
      ensures log[i].item in vs
    {
      var last := vs[|vs| - 1];
      assert last in vs;
      RowIsHot(log, next, rows, t, cursor, k, limit, last, i);
    }
  }

  lemma HotIndex(t: seq<ZMember>, k: nat, limit: nat, id: nat) returns (p: nat)
    requires k <= |t| && HasMember(Take(Reverse(t[..k]), limit), id)
    ensures p < k && k - limit <= p && t[p].member == id
  {
    var members := Take(Reverse(t[..k]), limit);
    var m :| 0 <= m < |members| && members[m].member == id;
    p := k - 1 - m;
    assert members[m] == t[p];
  }

  /** A row that is below the cursor and in the timeline is in the hot prefix. */
  lemma MemberIsHot(log: seq<Publication>, t: seq<ZMember>, cursor: Option<Cursor>, k: nat, v: Item) returns (q: nat)
    requires LogOk(log) && HotPrefix(t, cursor, k) && Issued(log, cursor)
    requires Logged(log, v) && Before(cursor, v) && HasMember(t, v.id)
    ensures q < k && t[q].member == v.id
  {
    q :| 0 <= q < |t| && t[q].member == v.id;
    if cursor.Some? {
      var c :| 0 <= c < |log| && CursorOf(log[c].item) == cursor.value;
      assert Logged(log, log[c].item);
      LoggedOrder(log, v, log[c].item);
    }
  }

  /** Between a hot item and the cursor, no delivered row is out of the hot range unless it is shadowed. */
  lemma RowIsHot(log: seq<Publication>, next: nat, rows: seq<Item>, t: seq<ZMember>,
                 cursor: Option<Cursor>, k: nat, limit: nat, last: Item, i: nat)
    requires LogOk(log) && TimelineOk(log, t) && !Shadowed(log, next, rows, t)
    requires HotPrefix(t, cursor, k) && Issued(log, cursor)
    requires Logged(log, last) && HasMember(Take(Reverse(t[..k]), limit), last.id)
    requires Due(log, next, rows, cursor, i) && !Newer(last, log[i].item)
    ensures HasMember(Take(Reverse(t[..k]), limit), log[i].item.id)
  {
    var v := log[i].item;
    assert Logged(log, v);
    LoggedOrder(log, last, v);
    if v.id != last.id {
      var p := HotIndex(t, k, limit, last.id);
      if !HasMember(t, v.id) {
        assert Shadows(log, next, rows, t, i, p);
      }
      var q := MemberIsHot(log, t, cursor, k, v);
      MemberIn(t, k, limit, q);
    }
  }

  lemma AppendNewestFirst(hot: seq<Item>, cold: seq<Item>)
    requires NewestFirst(hot) && NewestFirst(cold)
    requires forall v :: v in cold && hot != [] ==> Newer(hot[|hot| - 1], v)
    ensures NewestFirst(hot + cold)
  {
    forall i, j | 0 <= i < |hot| && 0 <= j < |cold| ensures Newer(hot[i], cold[j]) {
      assert cold[j] in cold;
    }
  }

  function BelowHot(hot: seq<Item>, cursor: Option<Cursor>): Option<Cursor> {
    if hot == [] then cursor else Some(CursorOf(hot[|hot| - 1]))
  }

  lemma StitchedIsAppend(rows: seq<Item>, hot: seq<Item>, cursor: Option<Cursor>, limit: nat)
    requires |hot| <= limit
    ensures var b := Stitched(rows, hot, cursor, limit);
      b.items == hot + ListLatest(rows, BelowHot(hot, cursor), limit - |hot|) && (|b.items| == limit ==> b.hasMore)
  {
    TakeTake(Filter(rows, Older(BelowHot(hot, cursor))), limit - |hot| + 1, limit - |hot|);
  }

  /** The cold rows are below the cursor and below the hot ones. */
  lemma ColdIsBelow(log: seq<Publication>, cursor: Option<Cursor>, hot: seq<Item>, v: Item)
    requires LogOk(log) && (forall u :: u in hot ==> Logged(log, u) && Before(cursor, u)) && Logged(log, v)
    requires Before(BelowHot(hot, cursor), v)
    ensures Before(cursor, v) && (hot != [] ==> Newer(hot[|hot| - 1], v))
  {
    if hot != [] {
      assert hot[|hot| - 1] in hot;
    }
  }

  lemma ColdRows(log: seq<Publication>, rows: seq<Item>, cursor: Option<Cursor>, limit: nat, hot: seq<Item>)
    requires LogOk(log) && RowsOk(log, rows) && forall v :: v in hot ==> Logged(log, v) && Before(cursor, v)
    ensures NewestFirst(ListLatest(rows, BelowHot(hot, cursor), limit))
    ensures |ListLatest(rows, BelowHot(hot, cursor), limit)| <= limit
    ensures forall v :: v in ListLatest(rows, BelowHot(hot, cursor), limit) ==> Logged(log, v) && Before(cursor, v)
    ensures hot != [] ==> forall v :: v in ListLatest(rows, BelowHot(hot, cursor), limit) ==> Newer(hot[|hot| - 1], v)
  {
    ListLatestSpec(rows, BelowHot(hot, cursor), limit);
    forall v | v in ListLatest(rows, BelowHot(hot, cursor), limit)
      ensures Logged(log, v) && Before(cursor, v) && (hot != [] ==> Newer(hot[|hot| - 1], v))
    {
      ColdIsBelow(log, cursor, hot, v);
    }
  }

  lemma JoinedDescends(log: seq<Publication>, cursor: Option<Cursor>, limit: nat, hot: seq<Item>, cold: seq<Item>)
    requires NewestFirst(hot) && NewestFirst(cold) && |hot| + |cold| <= limit
    requires forall v :: v in hot ==> Logged(log, v) && Before(cursor, v)
    requires forall v :: v in cold ==> Logged(log, v) && Before(cursor, v)
    requires hot != [] ==> forall v :: v in cold ==> Newer(hot[|hot| - 1], v)
    ensures NewestFirst(hot + cold) && |hot + cold| <= limit
    ensures forall v :: v in hot + cold ==> Logged(log, v) && Before(cursor, v)
  {
    AppendNewestFirst(hot, cold);
    forall v | v in hot + cold ensures Logged(log, v) && Before(cursor, v) {
      assert v in hot || v in cold;
    }
  }

  lemma StitchedDescends(log: seq<Publication>, rows: seq<Item>, cursor: Option<Cursor>, limit: nat, hot: seq<Item>)
    requires LogOk(log) && RowsOk(log, rows) && |hot| < limit && NewestFirst(hot)
    requires forall v :: v in hot ==> Logged(log, v) && Before(cursor, v)
    ensures var b := Stitched(rows, hot, cursor, limit);
      NewestFirst(b.items) && |b.items| <= limit && forall v :: v in b.items ==> Logged(log, v) && Before(cursor, v)
  {
    ColdRows(log, rows, cursor, limit - |hot|, hot);
    StitchedIsAppend(rows, hot, cursor, limit);
    JoinedDescends(log, cursor, limit, hot, ListLatest(rows, BelowHot(hot, cursor), limit - |hot|));
  }

  lemma StitchedLeavesOut(log: seq<Publication>, next: nat, rows: seq<Item>, cursor: Option<Cursor>, limit: nat,
                          hot: seq<Item>, i: int)
    requires RowsOk(log, rows) && |hot| < limit && NoGap(log, next, rows, cursor, hot)
    requires Due(log, next, rows, cursor, i)
    requires log[i].item !in Stitched(rows, hot, cursor, limit).items
    ensures var b := Stitched(rows, hot, cursor, limit);
      b.hasMore && b.items != [] && Newer(b.items[|b.items| - 1], log[i].item)
  {
    var remain, v := limit - |hot|, log[i].item;
    var below := BelowHot(hot, cursor);
    var b, cold := Stitched(rows, hot, cursor, limit), ListLatest(rows, below, remain);
    ListLatestSpec(rows, below, remain);
    StitchedIsAppend(rows, hot, cursor, limit);
    assert v !in hot && v !in cold && Before(below, v);
    assert b.items[|b.items| - 1] == cold[remain - 1] && cold[remain - 1] in cold;
  }

  /** Topping up: the cold rows follow the hot ones without a gap. */
  lemma StitchedOk(log: seq<Publication>, next: nat, rows: seq<Item>, cursor: Option<Cursor>, limit: nat,
                   hot: seq<Item>)
    requires LogOk(log) && RowsOk(log, rows) && |hot| < limit && NewestFirst(hot)
    requires forall v :: v in hot ==> Logged(log, v) && Before(cursor, v)
    requires NoGap(log, next, rows, cursor, hot)
    ensures var b := Stitched(rows, hot, cursor, limit);
      PageOk(log, next, rows, cursor, limit, b.items, b.hasMore)
  {
    var b := Stitched(rows, hot, cursor, limit);
    StitchedDescends(log, rows, cursor, limit, hot);
    forall i | Due(log, next, rows, cursor, i) && log[i].item !in b.items
      ensures b.hasMore && b.items != [] && Newer(b.items[|b.items| - 1], log[i].item)
    {
      StitchedLeavesOut(log, next, rows, cursor, limit, hot, i);
    }
  }

  lemma AssembledOk(log: seq<Publication>, next: nat, rows: seq<Item>, vs: seq<Item>, asked: bool, hotMore: bool,
                    cursor: Option<Cursor>, limit: nat, db: bool)
    requires LogOk(log) && RowsOk(log, rows) && 0 < limit && |vs| <= limit
    requires NewestFirst(vs) && (forall v :: v in vs ==> Logged(log, v) && Before(cursor, v))
    requires NoGap(log, next, rows, cursor, vs)
    requires hotMore ==> asked
    ensures var b := Assembled(vs, asked, hotMore, rows, cursor, limit, db);
      b.Batch? ==> PageOk(log, next, rows, cursor, limit, b.items, b.hasMore)
  {
    if asked && vs == [] {
      DBPageOk(log, next, rows, cursor, limit);
    } else if !hotMore && |vs| < limit {
      StitchedOk(log, next, rows, cursor, limit, vs);
    }
  }

  lemma FromHotOk(log: seq<Publication>, next: nat, rows: seq<Item>, entities: map<nat, Item>, t: seq<ZMember>,
                  cursor: Option<Cursor>, k: nat, limit: nat, faults: Faults)
    requires LogOk(log) && RowsOk(log, rows) && EntitiesOk(log, rows, entities) && TimelineOk(log, t)
    requires !Shadowed(log, next, rows, t) && 0 < limit
    requires HotPrefix(t, cursor, k) && Issued(log, cursor)
    ensures var b := FromHot(Take(Reverse(t[..k]), limit + 1), rows, entities, cursor, limit, faults);
      b.Batch? ==> PageOk(log, next, rows, cursor, limit, b.items, b.hasMore)
  {
    var members := Take(Reverse(t[..k]), limit);
    var ids := VideoIds(members);
    TakeTake(Reverse(t[..k]), limit + 1, limit);
    HotItems(log, next, rows, entities, t, cursor, k, limit);
    IdsAreFewer(members, entities);
    if k > limit {
      HotPageHasVideo(log, t, k, limit);
    }
    AssembledOk(log, next, rows, GetByIDs(entities, ids), ids != [], k > limit, cursor, limit, faults.db);
  }

  /** A page that does not come from the database alone comes from the hot prefix below the cursor. */
  lemma PageBranches(log: seq<Publication>, rows: seq<Item>, entities: map<nat, Item>, t: seq<ZMember>,
                     now: int, cursor: Option<Cursor>, limit: nat, faults: Faults)
    requires LogOk(log) && TimelineOk(log, t) && RequestOk(log, cursor, now)
    ensures var k := CountAtMost(t, RequestTime(cursor, now) - 1);
      var b := Page(t, rows, entities, now, cursor, limit, faults);
      || b == ListFromDB(rows, cursor, limit, faults.db)
      || (HotPrefix(t, cursor, k) && Issued(log, cursor)
          && b == FromHot(Take(Reverse(t[..k]), limit + 1), rows, entities, cursor, limit, faults))
  {
    if t != [] && RequestTime(cursor, now) > t[0].score {
      CountHot(log, t, cursor, now);
      assert EntryOk(log, t[0]);
      HotRange(log, t, cursor, RequestTime(cursor, now), limit);
    }
  }

  /** One page of the feed, on any branch: if it is served at all, nothing delivered is lost. */
  lemma PageIsOk(log: seq<Publication>, next: nat, rows: seq<Item>, entities: map<nat, Item>, t: seq<ZMember>,
                 now: int, cursor: Option<Cursor>, limit: nat, faults: Faults)
    requires LogOk(log) && RowsOk(log, rows) && EntitiesOk(log, rows, entities) && TimelineOk(log, t)
    requires !Shadowed(log, next, rows, t) && RequestOk(log, cursor, now) && 0 < limit
    ensures Served(log, next, rows, entities, t, now, cursor, limit, faults)
  {
    var k := CountAtMost(t, RequestTime(cursor, now) - 1);
    DBPageOk(log, next, rows, cursor, limit);
    PageBranches(log, rows, entities, t, now, cursor, limit, faults);
    if HotPrefix(t, cursor, k) && Issued(log, cursor) {
      FromHotOk(log, next, rows, entities, t, cursor, k, limit, faults);
    }
  }

  // ---- Exactly when a page fails ----------------------------------------------------------------

  /** Some video in the timeline is below the cursor, and nothing sends the request to the database first. */
  ghost predicate Hydrates(t: seq<ZMember>, now: int, cursor: Option<Cursor>, faults: Faults) {
    && !faults.ensure && !faults.tail && !faults.range && t != [] && t[0].score < RequestTime(cursor, now)
    && exists i :: 0 <= i < |t| && t[i].member != 0 && IDBelow(cursor, t[i].member)
  }

  lemma HotIdsIff(log: seq<Publication>, t: seq<ZMember>, cursor: Option<Cursor>, k: nat, limit: nat)
    requires LogOk(log) && TimelineOk(log, t) && HotPrefix(t, cursor, k) && 0 < limit
    ensures VideoIds(Take(Reverse(t[..k]), limit)) != [] <==>
      exists i :: 0 <= i < |t| && t[i].member != 0 && IDBelow(cursor, t[i].member)
  {
    var members := Take(Reverse(t[..k]), limit);
    VideoIdsSpec(members);
    if i :| 0 <= i < |t| && t[i].member != 0 && IDBelow(cursor, t[i].member) {
      assert i <= k - 1 && members[0] == t[k - 1];
      assert HasMember(members, t[k - 1].member);
      assert t[k - 1].member in VideoIds(members);
    }
    if VideoIds(members) != [] {
      var id := VideoIds(members)[0];
      assert id in VideoIds(members);
      var p := HotIndex(t, k, limit, id);
    }
  }

  lemma FromHotFailsIff(hot: seq<ZMember>, rows: seq<Item>, entities: map<nat, Item>, cursor: Option<Cursor>,
                        limit: nat, faults: Faults)
    requires !faults.db
    ensures FromHot(hot, rows, entities, cursor, limit, faults) == Failed <==>
      faults.entities && VideoIds(Take(hot, limit)) != []
  {
    HotPageIsServed(hot, rows, entities, cursor, limit, faults);
  }

  lemma HotFailsIff(log: seq<Publication>, rows: seq<Item>, entities: map<nat, Item>, t: seq<ZMember>,
                    cursor: Option<Cursor>, r: int, limit: nat, faults: Faults)
    requires LogOk(log) && TimelineOk(log, t) && 0 < r && HotPrefix(t, cursor, CountAtMost(t, r - 1)) && 0 < limit
    requires !faults.db
    ensures var hot := RevRangeByScore(t, r, RequestID(cursor), limit + 1);
      FromHot(hot, rows, entities, cursor, limit, faults) == Failed <==>
        faults.entities && exists i :: 0 <= i < |t| && t[i].member != 0 && IDBelow(cursor, t[i].member)
  {
    var k := CountAtMost(t, r - 1);
    HotRange(log, t, cursor, r, limit);
    TakeTake(Reverse(t[..k]), limit + 1, limit);
    HotIdsIff(log, t, cursor, k, limit);
    FromHotFailsIff(Take(Reverse(t[..k]), limit + 1), rows, entities, cursor, limit, faults);
  }

  /** While the database answers, a page fails exactly when the entity reader fails and there is a video to read. */
  lemma PageFailsIff(log: seq<Publication>, rows: seq<Item>, entities: map<nat, Item>, t: seq<ZMember>,
                     now: int, cursor: Option<Cursor>, limit: nat, faults: Faults)
    requires LogOk(log) && TimelineOk(log, t) && RequestOk(log, cursor, now) && 0 < limit && !faults.db
    ensures Page(t, rows, entities, now, cursor, limit, faults) == Failed <==>
      faults.entities && Hydrates(t, now, cursor, faults)
  {
    if t != [] && t[0].score < RequestTime(cursor, now) {
      CountHot(log, t, cursor, now);
      assert EntryOk(log, t[0]);
      HotFailsIff(log, rows, entities, t, cursor, RequestTime(cursor, now), limit, faults);
    }
  }

  // ---- Exactly when pages lose nothing ----------------------------------------------------------

  ghost predicate Served(log: seq<Publication>, next: nat, rows: seq<Item>, entities: map<nat, Item>, t: seq<ZMember>,
                         now: int, cursor: Option<Cursor>, limit: nat, faults: Faults)
  {
    var b := Page(t, rows, entities, now, cursor, limit, faults);
    b.Batch? ==> PageOk(log, next, rows, cursor, limit, b.items, b.hasMore)
  }

  /** Whatever is asked, whatever the reader still holds and whatever fails, a served page loses no delivered row. */
  ghost predicate PagesOk(log: seq<Publication>, next: nat, rows: seq<Item>, t: seq<ZMember>) {
    forall entities: map<nat, Item>, now: int, cursor: Option<Cursor>, limit: nat, faults: Faults ::
      EntitiesOk(log, rows, entities) && RequestOk(log, cursor, now) && 0 < limit ==>
        Served(log, next, rows, entities, t, now, cursor, limit, faults)
  }

  lemma IdsAreDistinct(log: seq<Publication>)
    requires LogOk(log)
    ensures forall a, b :: a in log && b in log && a.item.id == b.item.id ==> a.item == b.item
  {
    forall a, b | a in log && b in log && a.item.id == b.item.id ensures a.item == b.item {
      var i :| 0 <= i < |log| && log[i] == a;
      var j :| 0 <= j < |log| && log[j] == b;
      assert Logged(log, a.item) && Logged(log, b.item);
      LoggedOrder(log, a.item, b.item);
    }
  }

  /** A reader that still holds everything ever published. */
  ghost function Everything(log: seq<Publication>): map<nat, Item>
    requires LogOk(log)
  {
    IdsAreDistinct(log);
    map p | p in log :: p.item.id := p.item
  }

  lemma EverythingIsLogged(log: seq<Publication>)
    requires LogOk(log)
    ensures forall id :: id in Everything(log) ==> Everything(log)[id].id == id && Logged(log, Everything(log)[id])
    ensures forall v :: Logged(log, v) ==> v.id in Everything(log) && Everything(log)[v.id] == v
  {
    forall p | p in log ensures Logged(log, p.item) {
      var i :| 0 <= i < |log| && log[i] == p;
    }
    forall v | Logged(log, v) ensures v.id in Everything(log) && Everything(log)[v.id] == v {
      var i :| 0 <= i < |log| && log[i].item == v;
      assert log[i] in log;
    }
  }

  lemma EverythingOk(log: seq<Publication>, rows: seq<Item>)
    requires LogOk(log) && RowsOk(log, rows)
    ensures EntitiesOk(log, rows, Everything(log))
  {
    EverythingIsLogged(log);
  }

  /** The highest entry below an id that the timeline lacks. */
  lemma HighestBelow(t: seq<ZMember>, id: nat, from: nat) returns (p: nat)
    requires Ascending(t) && !HasMember(t, id) && from < |t| && t[from].member < id
    ensures from <= p < |t| && t[p].member < id && (p + 1 < |t| ==> id < t[p + 1].member)
    decreases |t| - from
  {
    if from + 1 < |t| && t[from + 1].member < id {
      p := HighestBelow(t, id, from + 1);
    } else {
      p := from;
    }
  }

  const NO_FAULTS := Faults(false, false, false, false, false)

  lemma OneHotItem(rows: seq<Item>, entities: map<nat, Item>, x: ZMember, cursor: Option<Cursor>, hot: seq<ZMember>)
    requires 0 < x.member && x.member in entities && hot != [] && hot[0] == x
    ensures FromHot(hot, rows, entities, cursor, 1, NO_FAULTS) == Batch([entities[x.member]], true)
  {
    OneID(x);
    OneEntity(entities, x.member);
    assert Take(hot, 1) == [x];
  }

  lemma OneID(x: ZMember)
    requires 0 < x.member
    ensures VideoIds([x]) == [x.member]
  {
    var none: seq<ZMember> := [];
    assert [x][..0] == none && VideoIds(none) == [];
  }

  lemma OneEntity(entities: map<nat, Item>, id: nat)
    requires id in entities
    ensures GetByIDs(entities, [id]) == [entities[id]]
  {
    assert [id][..0] == [];
  }

  /** The request that goes wrong: below the entry above the shadowed row, or from the top. */
  lemma RequestAbove(log: seq<Publication>, t: seq<ZMember>, p: nat) returns (cursor: Option<Cursor>, now: int)
    requires LogOk(log) && TimelineOk(log, t) && p < |t|
    ensures RequestOk(log, cursor, now) && Issued(log, cursor)
    ensures HotPrefix(t, cursor, p + 1) && RequestTime(cursor, now) > t[0].score
    ensures cursor.Some? ==> p + 1 < |t| && cursor.value.id == t[p + 1].member
  {
    assert EntryOk(log, t[0]);
    if p + 1 < |t| {
      assert EntryOk(log, t[p + 1]) && t[p].member < t[p + 1].member;
      var c :| 0 <= c < |log| && log[c].item.id == t[p + 1].member;
      cursor, now := Some(CursorOf(log[c].item)), 0;
      assert Logged(log, log[c].item);
      EntryOrder(log, t[0], log[c].item);
    } else {
      cursor, now := None, if log == [] then 1 else log[|log| - 1].eventTime + 1;
    }
  }

  lemma PrefixIsUnique(t: seq<ZMember>, cursor: Option<Cursor>, k: nat, n: nat)
    requires HotPrefix(t, cursor, k) && HotPrefix(t, cursor, n)
    ensures k == n
  {
    if k < |t| { var e := t[k]; }
    if n < |t| { var e := t[n]; }
  }

  lemma IssuedAbove(log: seq<Publication>, cursor: Option<Cursor>, v: Item)
    requires LogOk(log) && Issued(log, cursor) && Logged(log, v)
    requires cursor.Some? ==> v.id < cursor.value.id
    ensures Before(cursor, v)
  {
    if cursor.Some? {
      var c :| 0 <= c < |log| && CursorOf(log[c].item) == cursor.value;
      assert Logged(log, log[c].item);
      LoggedOrder(log, log[c].item, v);
    }
  }

  lemma LostOnPage(log: seq<Publication>, next: nat, rows: seq<Item>, cursor: Option<Cursor>, i: nat, u: Item)
    requires LogOk(log) && Logged(log, u) && Due(log, next, rows, cursor, i) && u.id < log[i].item.id
    ensures !PageOk(log, next, rows, cursor, 1, [u], true)
  {
    assert Logged(log, log[i].item);
    LoggedOrder(log, u, log[i].item);
  }

  lemma ShadowedRowIsLost(log: seq<Publication>, next: nat, rows: seq<Item>, t: seq<ZMember>, i: nat, from: nat)
    requires LogOk(log) && RowsOk(log, rows) && TimelineOk(log, t) && Shadows(log, next, rows, t, i, from)
    ensures !PagesOk(log, next, rows, t)
  {
    var v := log[i].item;
    var p := HighestBelow(t, v.id, from);
    var cursor, now := RequestAbove(log, t, p);
    EverythingIsLogged(log);
    EverythingOk(log, rows);
    assert EntryOk(log, t[p]);
    StepsOver(log, rows, Everything(log), t, p, cursor, now);
    assert Logged(log, v);
    IssuedAbove(log, cursor, v);
    LostOnPage(log, next, rows, cursor, i, Everything(log)[t[p].member]);
    assert !Served(log, next, rows, Everything(log), t, now, cursor, 1, NO_FAULTS);
  }

  lemma TopOfPrefix(t: seq<ZMember>, p: nat)
    requires p < |t|
    ensures Take(Reverse(t[..p + 1]), 2) != [] && Take(Reverse(t[..p + 1]), 2)[0] == t[p]
  {}

  lemma StepsOver(log: seq<Publication>, rows: seq<Item>, entities: map<nat, Item>, t: seq<ZMember>, p: nat,
                  cursor: Option<Cursor>, now: int)
    requires LogOk(log) && TimelineOk(log, t) && p < |t| && 0 < t[p].member && t[p].member in entities
    requires RequestOk(log, cursor, now) && HotPrefix(t, cursor, p + 1) && RequestTime(cursor, now) > t[0].score
    ensures Page(t, rows, entities, now, cursor, 1, NO_FAULTS) == Batch([entities[t[p].member]], true)
  {
    TopOfPrefix(t, p);
    RangeIsHot(log, t, now, cursor, 1, p + 1);
    PageOfTop(rows, entities, t, p, now, cursor);
  }

  lemma PageOfTop(rows: seq<Item>, entities: map<nat, Item>, t: seq<ZMember>, p: nat, now: int, cursor: Option<Cursor>)
    requires p < |t| && 0 < t[p].member && t[p].member in entities && RequestTime(cursor, now) > t[0].score
    requires var hot := RevRangeByScore(t, RequestTime(cursor, now), RequestID(cursor), 2); hot != [] && hot[0] == t[p]
    ensures Page(t, rows, entities, now, cursor, 1, NO_FAULTS) == Batch([entities[t[p].member]], true)
  {
    OneHotItem(rows, entities, t[p], cursor, RevRangeByScore(t, RequestTime(cursor, now), RequestID(cursor), 2));
  }

  lemma RangeIsHot(log: seq<Publication>, t: seq<ZMember>, now: int, cursor: Option<Cursor>, limit: nat, k: nat)
    requires LogOk(log) && TimelineOk(log, t) && t != [] && RequestOk(log, cursor, now) && HotPrefix(t, cursor, k)
    requires RequestTime(cursor, now) > t[0].score
    ensures RevRangeByScore(t, RequestTime(cursor, now), RequestID(cursor), limit + 1) ==
      Take(Reverse(t[..k]), limit + 1)
  {
    assert EntryOk(log, t[0]);
    CountHot(log, t, cursor, now);
    PrefixIsUnique(t, cursor, k, CountAtMost(t, RequestTime(cursor, now) - 1));
    HotRange(log, t, cursor, RequestTime(cursor, now), limit);
  }

  /** Pages lose no delivered row exactly when none is shadowed. */
  lemma PagesOkIff(log: seq<Publication>, next: nat, rows: seq<Item>, t: seq<ZMember>)
    requires LogOk(log) && RowsOk(log, rows) && TimelineOk(log, t)
    ensures PagesOk(log, next, rows, t) <==> !Shadowed(log, next, rows, t)
  {
    if Shadowed(log, next, rows, t) {
      var i, p :| Shadows(log, next, rows, t, i, p);
      ShadowedRowIsLost(log, next, rows, t, i, p);
    } else {
      forall entities: map<nat, Item>, now: int, cursor: Option<Cursor>, limit: nat, faults: Faults
        | EntitiesOk(log, rows, entities) && RequestOk(log, cursor, now) && 0 < limit
        ensures Served(log, next, rows, entities, t, now, cursor, limit, faults)
      {
        PageIsOk(log, next, rows, entities, t, now, cursor, limit, faults);
      }
    }
  }

  lemma CoveredAbove(log: seq<Publication>, next: nat, rows: seq<Item>, t: seq<ZMember>, i: nat, p: nat)
    requires LogOk(log) && TimelineOk(log, t) && Covered(log, next, rows, t)
    requires i < next && i < |log| && log[i].item in rows && p < |t| && 0 < t[p].member < log[i].item.id
    ensures HasMember(t, log[i].item.id)
  {
    assert EntryOk(log, t[p]) && Logged(log, log[i].item);
    EntryOrder(log, t[p], log[i].item);
    assert t[0].score <= t[p].score;
  }

  /** Coverage is more than pages need: it also asks for the rows above the sentinel. */
  lemma CoveredIsNotShadowed(log: seq<Publication>, next: nat, rows: seq<Item>, t: seq<ZMember>)
    requires LogOk(log) && TimelineOk(log, t) && Covered(log, next, rows, t)
    ensures !Shadowed(log, next, rows, t)
  {
    forall i, p ensures !Shadows(log, next, rows, t, i, p) {
      if 0 <= i < next && i < |log| && log[i].item in rows && 0 <= p < |t| && 0 < t[p].member < log[i].item.id {
        CoveredAbove(log, next, rows, t, i, p);
      }
    }
  }

  /** When the hot range goes on after the page, the page starts with a video, not with the sentinel. */
  lemma HotPageHasVideo(log: seq<Publication>, t: seq<ZMember>, k: nat, limit: nat)
    requires LogOk(log) && TimelineOk(log, t) && 0 < limit < k <= |t|
    ensures VideoIds(Take(Reverse(t[..k]), limit)) != []
  {
    var members := Take(Reverse(t[..k]), limit);
    assert members[0] == t[k - 1] && t[0].member < t[k - 1].member;
    VideoIdsSpec(members);
    assert HasMember(members, members[0].member);
    assert members[0].member in VideoIds(members);
  }

  // ---- Refinement of the plain listing ------------------------------------------------------

  lemma {:induction false} PrefixUnique(a: seq<Item>, b: seq<Item>)
    requires NewestFirst(a) && NewestFirst(b)
    requires forall v :: v in a ==> v in b
    requires a != [] ==> forall v :: v in b && v !in a ==> Newer(a[|a| - 1], v)
    ensures a <= b
  {
    if a != [] {
      var last := a[|a| - 1];
      assert a[0] in a && last in a;
      assert a[0] in b && last in b;
      var k :| 0 <= k < |b| && b[k] == last;
      var j :| 0 <= j < |b| && b[j] == a[0];
      assert b[0] in b;
      assert b[0] in a by {
        assert b[0] == b[k] || Newer(b[0], b[k]);
      }
      assert b[0] == a[0];
      forall v | v in a[1..] ensures v in b[1..] {
        assert v in a && v in b;
      }
      forall v | v in b[1..] && v !in a[1..] && a[1..] != [] ensures Newer(last, v) {
        assert v in b && v != a[0];
        assert a == [a[0]] + a[1..];
      }
      PrefixUnique(a[1..], b[1..]);
    }
  }

  /** No member of the timeline refers to a deleted video. */
  ghost predicate NoGhosts(t: seq<ZMember>, entities: map<nat, Item>) {
    forall i :: 0 <= i < |t| ==> t[i].member == 0 || t[i].member in entities
  }

  lemma {:induction false} AllHydrated(members: seq<ZMember>, entities: map<nat, Item>)
    requires forall i :: 0 <= i < |members| ==> members[i].member != 0 && members[i].member in entities
    ensures |GetByIDs(entities, VideoIds(members))| == |members|
  {
    if members != [] {
      var n := |members| - 1;
      AllHydrated(members[..n], entities);
      var ids := VideoIds(members);
      assert ids[..|ids| - 1] == VideoIds(members[..n]);
    }
  }

  lemma AssembledFull(vs: seq<Item>, asked: bool, hotMore: bool, rows: seq<Item>,
                      cursor: Option<Cursor>, limit: nat, db: bool)
    requires |vs| <= limit && (hotMore ==> |vs| == limit)
    ensures var b := Assembled(vs, asked, hotMore, rows, cursor, limit, db);
      b.Batch? && b.hasMore ==> |b.items| == limit
  {}

  lemma FromHotFull(log: seq<Publication>, rows: seq<Item>, entities: map<nat, Item>, t: seq<ZMember>,
                    cursor: Option<Cursor>, k: nat, limit: nat, faults: Faults)
    requires LogOk(log) && TimelineOk(log, t) && k <= |t| && 0 < limit && NoGhosts(t, entities)
    ensures var b := FromHot(Take(Reverse(t[..k]), limit + 1), rows, entities, cursor, limit, faults);
      b.Batch? && b.hasMore ==> |b.items| == limit
  {
    var members := Take(Reverse(t[..k]), limit);
    var ids := VideoIds(members);
    TakeTake(Reverse(t[..k]), limit + 1, limit);
    IdsAreFewer(members, entities);
    if k > limit {
      forall i | 0 <= i < |members| ensures members[i].member != 0 && members[i].member in entities {
        assert members[i] == t[k - 1 - i] && t[0].member < t[k - 1 - i].member;
      }
      AllHydrated(members, entities);
    }
    AssembledFull(GetByIDs(entities, ids), ids != [], k > limit, rows, cursor, limit, faults.db);
  }

  /** Without ghosts a page that announces more is full. */
  lemma FullPage(log: seq<Publication>, rows: seq<Item>, entities: map<nat, Item>, t: seq<ZMember>,
                 now: int, cursor: Option<Cursor>, limit: nat, faults: Faults)
    requires LogOk(log) && TimelineOk(log, t) && RequestOk(log, cursor, now) && 0 < limit && NoGhosts(t, entities)
    ensures var b := Page(t, rows, entities, now, cursor, limit, faults);
      b.Batch? && b.hasMore ==> |b.items| == limit
  {
    if t != [] && RequestTime(cursor, now) > t[0].score {
      var k := CountAtMost(t, RequestTime(cursor, now) - 1);
      CountHot(log, t, cursor, now);
      assert EntryOk(log, t[0]);
      HotRange(log, t, cursor, RequestTime(cursor, now), limit);
      FromHotFull(log, rows, entities, t, cursor, k, limit, faults);
    }
  }

  /** With nothing on the way, a page is a prefix of what the database would list for the same cursor: empty
      only when that is empty, all of it when the timeline has no ghosts, and all there is when it ends the walk. */
  lemma PageRefinesListing(log: seq<Publication>, rows: seq<Item>, entities: map<nat, Item>, t: seq<ZMember>,
                           now: int, cursor: Option<Cursor>, limit: nat, faults: Faults)
    requires LogOk(log) && RowsOk(log, rows) && EntitiesOk(log, rows, entities) && TimelineOk(log, t)
    requires forall id :: id in entities ==> entities[id] in rows
    requires !Shadowed(log, |log|, rows, t) && RequestOk(log, cursor, now) && 0 < limit
    ensures var b, db := Page(t, rows, entities, now, cursor, limit, faults), ListFromDB(rows, cursor, limit, false);
      b.Batch? ==>
        && b.items <= db.items
        && (b.items == [] ==> db.items == [])
        && (NoGhosts(t, entities) ==> b.items == db.items)
        && (!b.hasMore ==> b.items == db.items && !db.hasMore)
  {
    var b := Page(t, rows, entities, now, cursor, limit, faults);
    if b.Batch? {
      PageIsOk(log, |log|, rows, entities, t, now, cursor, limit, faults);
      PageOfRows(log, rows, entities, t, now, cursor, limit, faults);
      OkPageIsPrefix(log, rows, cursor, limit, b.items, b.hasMore);
      if NoGhosts(t, entities) {
        FullPage(log, rows, entities, t, now, cursor, limit, faults);
      }
    }
  }

  lemma OkPageIsPrefix(log: seq<Publication>, rows: seq<Item>, cursor: Option<Cursor>, limit: nat,
                       items: seq<Item>, hasMore: bool)
    requires RowsOk(log, rows) && PageOk(log, |log|, rows, cursor, limit, items, hasMore)
    requires forall v :: v in items ==> v in rows
    ensures items <= Filter(rows, Older(cursor))
    ensures !hasMore || items == [] ==> items == Filter(rows, Older(cursor))
  {
    var all := Filter(rows, Older(cursor));
    FilterNewestFirst(rows, Older(cursor));
    forall v ensures v in all <==> v in rows && Before(cursor, v) { FilterIn(rows, Older(cursor), v); }
    forall v | v in all && v !in items ensures hasMore && items != [] && Newer(items[|items| - 1], v) {
      var i :| 0 <= i < |log| && log[i].item == v;
      assert Due(log, |log|, rows, cursor, i);
    }
    PrefixUnique(items, all);
    if !hasMore || items == [] {
      PrefixUnique(all, items);
    }
  }

  lemma {:induction false} HydratedAreEntities(entities: map<nat, Item>, ids: seq<nat>)
    ensures forall v :: v in GetByIDs(entities, ids) ==> exists id :: id in entities && entities[id] == v
  {
    if ids != [] {
      HydratedAreEntities(entities, ids[..|ids| - 1]);
    }
  }

  lemma AssembledOfRows(vs: seq<Item>, asked: bool, hotMore: bool, rows: seq<Item>,
                        cursor: Option<Cursor>, limit: nat, db: bool)
    requires NewestFirst(rows) && |vs| <= limit && forall v :: v in vs ==> v in rows
    ensures var b := Assembled(vs, asked, hotMore, rows, cursor, limit, db);
      b.Batch? ==> forall v :: v in b.items ==> v in rows
  {
    ListLatestSpec(rows, cursor, limit + 1);
    ListLatestSpec(rows, if vs == [] then cursor else Some(CursorOf(vs[|vs| - 1])), limit - |vs| + 1);
  }

  lemma FromHotOfRows(rows: seq<Item>, entities: map<nat, Item>, hot: seq<ZMember>,
                      cursor: Option<Cursor>, limit: nat, faults: Faults)
    requires NewestFirst(rows) && forall id :: id in entities ==> entities[id] in rows
    ensures var b := FromHot(hot, rows, entities, cursor, limit, faults);
      b.Batch? ==> forall v :: v in b.items ==> v in rows
  {
    var ids := VideoIds(Take(hot, limit));
    HydratedAreEntities(entities, ids);
    IdsAreFewer(Take(hot, limit), entities);
    AssembledOfRows(GetByIDs(entities, ids), ids != [], |hot| > limit, rows, cursor, limit, faults.db);
  }

  lemma PageOfRows(log: seq<Publication>, rows: seq<Item>, entities: map<nat, Item>, t: seq<ZMember>,
                   now: int, cursor: Option<Cursor>, limit: nat, faults: Faults)
    requires NewestFirst(rows) && forall id :: id in entities ==> entities[id] in rows
    ensures var b := Page(t, rows, entities, now, cursor, limit, faults);
      b.Batch? ==> forall v :: v in b.items ==> v in rows
  {
    ListLatestSpec(rows, cursor, limit + 1);
    var hot := RevRangeByScore(t, RequestTime(cursor, now), RequestID(cursor), limit + 1);
    FromHotOfRows(rows, entities, hot, cursor, limit, faults);
  }
}
