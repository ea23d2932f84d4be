/** Whole runs of the feed: one client walks the pages while videos are published, delivered, dropped and delivered
    again, deleted, and the timeline is cut, evicted and rebuilt around it. */
module FeedRuns {
  import opened Sequences
  import opened CursorCodec
  import opened SortedSets
  import opened Timeline
  import opened GlobalFeed
  import opened FeedPages

  /** `log` is everything ever committed; the first `next` of its events have been delivered. */
  datatype World = World(log: seq<Publication>, next: nat, rows: seq<Item>, timeline: seq<ZMember>)

  /** A client: the cursor text it will send, what it has been given, and what was delivered when it started. */
  datatype Walk = Walk(text: string, out: seq<Item>, done: bool, started: nat)

  datatype Step =
    | Publish(p: Publication)
    | Deliver(trimmed: bool)
    | Redeliver(j: nat, trimmed: bool)
    | Miss
    | DeleteRow(id: nat)
    | Forget(id: nat)
    | Evict
    | Rebuild
    | Ask(entities: map<nat, Item>, now: int, limit: int, faults: Faults)

  function Event(p: Publication): ZMember {
    ZMember(p.eventTime, p.item.id)
  }

  function Without(id: nat): Item -> bool {
    (v: Item) => v.id != id
  }

  /** A response of the feed moves the walk on; an outage leaves it where it is. */
  function Received(k: Walk, r: Response): Walk {
    match r
    case Listed(items, next) => k.(text := next, out := k.out + items, done := next == "")
    case _ => k
  }

  /** A step that does not apply changes nothing. */
  function Next(w: World, k: Walk, cap: nat, step: Step): (World, Walk) {
    match step
    case Publish(p) => (w.(log := w.log + [p], rows := [p.item] + w.rows), k)
    case Deliver(trimmed) =>
      if w.next >= |w.log| then (w, k)
      else (w.(timeline := Written(w.timeline, cap, Write(Event(w.log[w.next]), trimmed)), next := w.next + 1), k)
    case Redeliver(j, trimmed) =>
      if j >= |w.log| then (w, k)
      else (w.(timeline := Written(w.timeline, cap, Write(Event(w.log[j]), trimmed))), k)
    case Miss => if w.next >= |w.log| then (w, k) else (w.(next := w.next + 1), k)
    case DeleteRow(id) => (w.(rows := Filter(w.rows, Without(id))), k)
    case Forget(id) => (w.(timeline := Remove(w.timeline, id)), k)
    case Evict => (w.(timeline := []), k)
    case Rebuild => (w.(timeline := Rebuilt(w.rows, cap)), k)
    case Ask(entities, now, limit, faults) =>
      var (r, t) := Answer(w.timeline, w.rows, entities, cap, now, k.text, limit, faults);
      (w.(timeline := t), Received(k, r))
  }

  /** First deliveries come in publish order; an event may be dropped instead, and any delivered event may come again,
      in any order and as often as it likes; a member is removed only after its row; a walk ends when it is told to. */
  ghost predicate Possible(w: World, k: Walk, step: Step) {
    match step
    case Publish(p) => LogOk(w.log + [p])
    case Deliver(_) => w.next < |w.log|
    case Redeliver(j, _) => j < w.next
    case Miss => w.next < |w.log|
    case DeleteRow(_) => true
    case Forget(id) => forall v :: v in w.rows ==> v.id != id
    case Evict => true
    case Rebuild => w.timeline == []
    case Ask(entities, now, _, _) =>
      && !k.done && EntitiesOk(w.log, w.rows, entities)
      && (k.text == "" ==> RequestOk(w.log, None, now))
  }

  /** No delivered row is shadowed: by `FeedPages.PagesOkIff`, pages lose nothing. */
  ghost predicate Clear(w: World) {
    !Shadowed(w.log, w.next, w.rows, w.timeline)
  }

  /** What a walk needs: that pages lose nothing at the moments it asks for one. */
  ghost predicate Enabled(w: World, k: Walk, step: Step) {
    Possible(w, k, step) && (step.Ask? ==> Clear(w))
  }

  ghost predicate EntriesOk(log: seq<Publication>, t: seq<ZMember>) {
    Ranked(t) && forall e :: e in t ==> EntryOk(log, e)
  }

  ghost predicate WorldOk(w: World) {
    LogOk(w.log) && w.next <= |w.log| && RowsOk(w.log, w.rows) && EntriesOk(w.log, w.timeline)
  }

  function TextFor(out: seq<Item>): string {
    if out == [] then "" else EncodeCursor(CursorOf(out[|out| - 1]))
  }

  /** What the client holds is strictly descending, and every row delivered before it started
      has been returned or still lies ahead of its cursor. */
  ghost predicate WalkOk(w: World, k: Walk) {
    && NewestFirst(k.out) && AllLogged(w.log, k.out) && k.started <= w.next
    && (!k.done ==> k.text == TextFor(k.out))
    && (forall i :: 0 <= i < k.started && i < |w.log| && w.log[i].item in w.rows ==>
          || w.log[i].item in k.out
          || (!k.done && (k.out != [] ==> Newer(k.out[|k.out| - 1], w.log[i].item))))
  }

  // ---- Every step keeps the world in order --------------------------------------------------------

  lemma LogGrows(log: seq<Publication>, p: Publication)
    ensures forall v :: Logged(log, v) ==> Logged(log + [p], v)
    ensures forall e :: EntryOk(log, e) ==> EntryOk(log + [p], e)
    ensures Logged(log + [p], p.item)
  {
    var longer := log + [p];
    assert longer[|log|] == p;
    forall v | Logged(log, v) ensures Logged(longer, v) {
      var i :| 0 <= i < |log| && log[i].item == v;
      assert longer[i] == log[i];
    }
    forall e | EntryOk(log, e) && e != ZMember(0, 0) ensures EntryOk(longer, e) {
      var i :| 0 <= i < |log| && log[i].item.id == e.member && log[i].item.createdAt <= e.score <= log[i].eventTime;
      assert longer[i] == log[i];
    }
  }

  lemma PublishKeeps(w: World, p: Publication)
    requires WorldOk(w) && LogOk(w.log + [p])
    ensures WorldOk(w.(log := w.log + [p], rows := [p.item] + w.rows))
  {
    var log := w.log + [p];
    LogGrows(w.log, p);
    forall i | 0 <= i < |w.rows| ensures Newer(p.item, w.rows[i]) {
      assert w.rows[i] in w.rows;
      var j :| 0 <= j < |w.log| && w.log[j].item == w.rows[i];
      assert log[j].item.id < log[|w.log|].item.id;
      LoggedOrder(log, p.item, w.rows[i]);
    }
  }

  lemma TimelineAscends(log: seq<Publication>, t: seq<ZMember>)
    requires LogOk(log) && EntriesOk(log, t)
    ensures TimelineOk(log, t)
  {
    forall i | 0 <= i < |t| ensures EntryOk(log, t[i]) { assert t[i] in t; }
    RankedAscends(log, t);
  }

  lemma WrittenKeeps(log: seq<Publication>, t: seq<ZMember>, cap: nat, j: nat, trimmed: bool)
    requires LogOk(log) && EntriesOk(log, t) && j < |log|
    ensures EntriesOk(log, Add(t, Event(log[j])))
    ensures EntriesOk(log, Written(t, cap, Write(Event(log[j]), trimmed)))
  {
    var e := Event(log[j]);
    AddSpec(t, e);
    assert EntryOk(log, e);
    LastRanked(Add(t, e), cap);
  }

  lemma DeleteRowKeeps(w: World, id: nat)
    requires WorldOk(w)
    ensures WorldOk(w.(rows := Filter(w.rows, Without(id))))
    ensures forall v :: v in Filter(w.rows, Without(id)) ==> v in w.rows
  {
    FilterNewestFirst(w.rows, Without(id));
    forall v ensures v in Filter(w.rows, Without(id)) ==> v in w.rows { FilterIn(w.rows, Without(id), v); }
  }

  /** A rebuilt timeline holds exactly the newest rows, or the sentinel when there are none. */
  lemma RebuiltHolds(log: seq<Publication>, rows: seq<Item>, cap: nat)
    requires LogOk(log) && RowsOk(log, rows) && 0 < cap
    ensures var t, vs := Rebuilt(rows, cap), ListLatest(rows, None, cap);
      && Ranked(t)
      && (forall e :: e in t <==> e in if vs == [] then [ZMember(0, 0)] else Entries(vs))
  {
    var vs := ListLatest(rows, None, cap);
    ListLatestSpec(rows, None, cap);
    forall i, j | 0 <= i < j < |vs| ensures vs[i].id != vs[j].id {
      assert vs[i] in vs && vs[j] in vs;
      LoggedOrder(log, vs[i], vs[j]);
    }
    AddAllSpec([], if vs == [] then [ZMember(0, 0)] else Entries(vs));
  }

  lemma RowEntryOk(log: seq<Publication>, v: Item)
    requires LogOk(log) && Logged(log, v)
    ensures EntryOk(log, ZMember(v.createdAt, v.id))
  {}

  lemma RebuildKeeps(w: World, cap: nat)
    requires WorldOk(w) && 0 < cap
    ensures WorldOk(w.(timeline := Rebuilt(w.rows, cap)))
  {
    var t, vs := Rebuilt(w.rows, cap), ListLatest(w.rows, None, cap);
    ListLatestSpec(w.rows, None, cap);
    RebuiltHolds(w.log, w.rows, cap);
    forall e | e in t ensures EntryOk(w.log, e) {
      if vs != [] {
        var k :| 0 <= k < |vs| && Entries(vs)[k] == e;
        assert vs[k] in vs;
        RowEntryOk(w.log, vs[k]);
      }
    }
  }

  lemma RebuiltAbove(w: World, cap: nat, v: Item, p: nat)
    requires WorldOk(w) && 0 < cap && v in w.rows
    requires p < |Rebuilt(w.rows, cap)| && 0 < Rebuilt(w.rows, cap)[p].member < v.id
    ensures HasMember(Rebuilt(w.rows, cap), v.id)
  {
    var t, vs := Rebuilt(w.rows, cap), ListLatest(w.rows, None, cap);
    ListLatestSpec(w.rows, None, cap);
    RebuiltHolds(w.log, w.rows, cap);
    assert t[p] in t;
    var k :| 0 <= k < |vs| && Entries(vs)[k] == t[p];
    assert vs[k] in vs;
    LoggedOrder(w.log, vs[k], v);
    var m :| 0 <= m < |vs| && vs[m] == v;
    assert Entries(vs)[m] in t;
  }

  /** A rebuilt timeline shadows nothing. */
  lemma RebuildIsClear(w: World, cap: nat)
    requires WorldOk(w) && 0 < cap
    ensures Clear(w.(timeline := Rebuilt(w.rows, cap)))
  {
    var t := Rebuilt(w.rows, cap);
    forall i, p ensures !Shadows(w.log, w.next, w.rows, t, i, p) {
      if 0 <= i < w.next && w.log[i].item in w.rows && 0 <= p < |t| && 0 < t[p].member < w.log[i].item.id {
        RebuiltAbove(w, cap, w.log[i].item, p);
      }
    }
  }

  lemma StepKeepsWorld(w: World, k: Walk, cap: nat, step: Step)
    requires WorldOk(w) && 0 < cap && Possible(w, k, step)
    ensures WorldOk(Next(w, k, cap, step).0)
  {
    match step
    case Publish(p) => PublishKeeps(w, p);
    case Deliver(trimmed) => WrittenKeeps(w.log, w.timeline, cap, w.next, trimmed);
    case Redeliver(j, trimmed) => WrittenKeeps(w.log, w.timeline, cap, j, trimmed);
    case Miss =>
    case DeleteRow(id) => DeleteRowKeeps(w, id);
    case Forget(id) => RemoveSpec(w.timeline, id);
    case Evict =>
    case Rebuild => RebuildKeeps(w, cap);
    case Ask(_, _, _, _) => RebuildKeeps(w, cap);
  }

  // ---- Every step keeps the walk ------------------------------------------------------------

  lemma EncodedIsNotEmpty(c: Cursor)
    ensures EncodeCursor(c) != ""
  {}

  /** The cursor text the client holds decodes to the last video it was given. */
  lemma TextDecodes(log: seq<Publication>, out: seq<Item>)
    requires LogOk(log) && AllLogged(log, out)
    ensures out == [] ==> TextFor(out) == ""
    ensures out != [] ==>
      var c := CursorOf(out[|out| - 1]);
      TextFor(out) != "" && DecodeCursor(TextFor(out)) == Some(c) && RequestOk(log, Some(c), 0)
  {
    if out != [] {
      var last := out[|out| - 1];
      assert last in out;
      var i :| 0 <= i < |log| && log[i].item == last;
      CursorRoundTrip(CursorOf(last));
      EncodedIsNotEmpty(CursorOf(last));
    }
  }

  function ResumeAt(out: seq<Item>): Option<Cursor> {
    if out == [] then None else Some(CursorOf(out[|out| - 1]))
  }

  lemma AnswerIsPage(w: World, out: seq<Item>, cap: nat, entities: map<nat, Item>, now: int, limit: int, faults: Faults)
    requires LogOk(w.log) && AllLogged(w.log, out)
    ensures var t := Ensured(w.timeline, w.rows, cap, faults.ensure);
      Answer(w.timeline, w.rows, entities, cap, now, TextFor(out), limit, faults).0
        == Respond(Page(t, w.rows, entities, now, ResumeAt(out), PageSize(limit), faults))
  {
    TextDecodes(w.log, out);
  }

  /** A request with that text is answered with an acceptable page, or not at all. */
  lemma AnswerIsOk(w: World, k: Walk, cap: nat, entities: map<nat, Item>, now: int, limit: int, faults: Faults)
    requires WorldOk(w) && WalkOk(w, k) && 0 < cap && Enabled(w, k, Ask(entities, now, limit, faults))
    ensures var r := Answer(w.timeline, w.rows, entities, cap, now, k.text, limit, faults).0;
      r == Unavailable ||
      exists b: Batch :: b.Batch? && r == Respond(b)
                         && PageOk(w.log, w.next, w.rows, ResumeAt(k.out), PageSize(limit), b.items, b.hasMore)
  {
    var t := Ensured(w.timeline, w.rows, cap, faults.ensure);
    if w.timeline == [] {
      RebuildKeeps(w, cap);
      RebuildIsClear(w, cap);
    }
    TimelineAscends(w.log, t);
    TextDecodes(w.log, k.out);
    PageIsOk(w.log, w.next, w.rows, entities, t, now, ResumeAt(k.out), PageSize(limit), faults);
    AnswerIsPage(w, k.out, cap, entities, now, limit, faults);
  }

  lemma AskKeepsWalk(w: World, k: Walk, cap: nat, entities: map<nat, Item>, now: int, limit: int, faults: Faults)
    requires WorldOk(w) && WalkOk(w, k) && 0 < cap && Enabled(w, k, Ask(entities, now, limit, faults))
    ensures WalkOk(w, Received(k, Answer(w.timeline, w.rows, entities, cap, now, k.text, limit, faults).0))
  {
    AnswerIsOk(w, k, cap, entities, now, limit, faults);
    var r := Answer(w.timeline, w.rows, entities, cap, now, k.text, limit, faults).0;
    if r != Unavailable {
      var b: Batch :| b.Batch? && r == Respond(b)
                      && PageOk(w.log, w.next, w.rows, ResumeAt(k.out), PageSize(limit), b.items, b.hasMore);
      PageExtendsWalk(w, k, b.items, b.hasMore, PageSize(limit));
    }
  }

  /** Appending an acceptable page to the walk. */
  lemma PageExtendsWalk(w: World, k: Walk, items: seq<Item>, hasMore: bool, limit: nat)
    requires WalkOk(w, k) && !k.done
    requires PageOk(w.log, w.next, w.rows, ResumeAt(k.out), limit, items, hasMore)
    ensures WalkOk(w, Received(k, Respond(Batch(items, hasMore))))
  {
    var k' := Received(k, Respond(Batch(items, hasMore)));
    AppendNewestFirst(k.out, items);
    if items != [] {
      EncodedIsNotEmpty(CursorOf(items[|items| - 1]));
    }
    forall i | 0 <= i < k.started && i < |w.log| && w.log[i].item in w.rows && w.log[i].item !in k'.out
      ensures !k'.done && (k'.out != [] ==> Newer(k'.out[|k'.out| - 1], w.log[i].item))
    {
      assert w.log[i].item !in k.out && w.log[i].item !in items;
      assert Due(w.log, w.next, w.rows, ResumeAt(k.out), i);
    }
  }

  lemma PublishKeepsWalk(w: World, k: Walk, p: Publication)
    requires WorldOk(w) && WalkOk(w, k) && LogOk(w.log + [p])
    ensures WalkOk(w.(log := w.log + [p], rows := [p.item] + w.rows), k)
  {
    LogGrows(w.log, p);
    var log := w.log + [p];
    forall i | 0 <= i < k.started && log[i].item in [p.item] + w.rows
      ensures log[i] == w.log[i] && w.log[i].item in w.rows
    {
      assert log[i].item.id < log[|w.log|].item.id;
    }
  }

  /** Steps that only move the timeline or drop rows leave the walk acceptable. */
  lemma OtherKeepsWalk(w: World, w': World, k: Walk)
    requires WalkOk(w, k) && w'.log == w.log && w.next <= w'.next && forall v :: v in w'.rows ==> v in w.rows
    ensures WalkOk(w', k)
  {}

  lemma StepKeepsWalk(w: World, k: Walk, cap: nat, step: Step)
    requires WorldOk(w) && WalkOk(w, k) && 0 < cap && Enabled(w, k, step)
    ensures var (w', k') := Next(w, k, cap, step);
      WorldOk(w') && WalkOk(w', k') && w.log <= w'.log && k.started == k'.started
  {
    StepKeepsWorld(w, k, cap, step);
    var w' := Next(w, k, cap, step).0;
    if step.Publish? {
      PublishKeepsWalk(w, k, step.p);
    } else if step.Ask? {
      AskKeepsWalk(w, k, cap, step.entities, step.now, step.limit, step.faults);
      OtherKeepsWalk(w, w', Next(w, k, cap, step).1);
    } else {
      if step.DeleteRow? { DeleteRowKeeps(w, step.id); }
      OtherKeepsWalk(w, w', k);
    }
  }

  // ---- Whole runs -----------------------------------------------------------------------------

  ghost predicate AllEnabled(w: World, k: Walk, cap: nat, steps: seq<Step>)
    decreases |steps|
  {
    steps == [] ||
    (Enabled(w, k, steps[0]) &&
     var (w', k') := Next(w, k, cap, steps[0]);
     AllEnabled(w', k', cap, steps[1..]))
  }

  ghost function Run(w: World, k: Walk, cap: nat, steps: seq<Step>): (World, Walk)
    decreases |steps|
  {
    if steps == [] then (w, k)
    else
      var (w', k') := Next(w, k, cap, steps[0]);
      Run(w', k', cap, steps[1..])
  }

  lemma {:induction false} RunKeeps(w: World, k: Walk, cap: nat, steps: seq<Step>)
    requires WorldOk(w) && WalkOk(w, k) && 0 < cap && AllEnabled(w, k, cap, steps)
    ensures var (w', k') := Run(w, k, cap, steps);
      WorldOk(w') && WalkOk(w', k') && w.log <= w'.log && k.started == k'.started
    decreases |steps|
  {
    if steps != [] {
      StepKeepsWalk(w, k, cap, steps[0]);
      var (w', k') := Next(w, k, cap, steps[0]);
      RunKeeps(w', k', cap, steps[1..]);
    }
  }

  ghost predicate Once(out: seq<Item>, v: Item) {
    v in out && forall i, j :: 0 <= i < j < |out| ==> !(out[i] == v && out[j] == v)
  }

  /** A walk that starts in any state of a run, interleaved with anything, and asks for pages while none of them loses a
      row, returns strictly descending videos, and by the time it ends, every video delivered before it started and
      never deleted: exactly once. */
  lemma WalkReturnsEveryVideoOnce(w: World, cap: nat, steps: seq<Step>)
    requires WorldOk(w) && 0 < cap
    requires AllEnabled(w, Walk("", [], false, w.next), cap, steps)
    ensures var (w', k') := Run(w, Walk("", [], false, w.next), cap, steps);
      && (forall i, j :: 0 <= i < j < |k'.out| ==> Newer(k'.out[i], k'.out[j]))
      && (k'.done ==> forall i :: 0 <= i < w.next && w.log[i].item in w'.rows ==> Once(k'.out, w.log[i].item))
  {
    var start := Walk("", [], false, w.next);
    RunKeeps(w, start, cap, steps);
    var (w', k') := Run(w, start, cap, steps);
    forall i | k'.done && 0 <= i < w.next && w.log[i].item in w'.rows ensures Once(k'.out, w.log[i].item) {
      assert w'.log[i] == w.log[i];
    }
  }

  /** Only a fault of the database or of the entity reader leaves a walking client without a page; the page holds at
      most what was asked for, twenty videos if that was out of range. */
  lemma AnswerIsListed(w: World, out: seq<Item>, cap: nat, entities: map<nat, Item>, now: int, limit: int,
                       faults: Faults)
    requires LogOk(w.log) && AllLogged(w.log, out)
    ensures var r := Answer(w.timeline, w.rows, entities, cap, now, TextFor(out), limit, faults).0;
      && (r.Listed? || (r == Unavailable && (faults.db || faults.entities)))
      && (r.Listed? ==> |r.items| <= if 1 <= limit <= 100 then limit else 20)
  {
    AnswerIsPage(w, out, cap, entities, now, limit, faults);
    PageIsServed(Ensured(w.timeline, w.rows, cap, faults.ensure), w.rows, entities, now, ResumeAt(out),
                 PageSize(limit), faults);
  }

  /** And exactly that many, when it announces more and no member of the timeline refers to a deleted video. */
  lemma AnswerIsFull(w: World, k: Walk, cap: nat, entities: map<nat, Item>, now: int, limit: int, faults: Faults)
    requires WorldOk(w) && WalkOk(w, k) && 0 < cap && Enabled(w, k, Ask(entities, now, limit, faults))
    requires NoGhosts(Ensured(w.timeline, w.rows, cap, faults.ensure), entities)
    ensures var r := Answer(w.timeline, w.rows, entities, cap, now, k.text, limit, faults).0;
      r.Listed? && r.next != "" ==> |r.items| == if 1 <= limit <= 100 then limit else 20
  {
    var t := Ensured(w.timeline, w.rows, cap, faults.ensure);
    if w.timeline == [] {
      RebuildKeeps(w, cap);
    }
    TimelineAscends(w.log, t);
    TextDecodes(w.log, k.out);
    AnswerIsPage(w, k.out, cap, entities, now, limit, faults);
    FullPage(w.log, w.rows, entities, t, now, ResumeAt(k.out), PageSize(limit), faults);
  }

  lemma EntryIn(vs: seq<Item>, e: ZMember)
    ensures e in Entries(vs) <==> exists i :: 0 <= i < |vs| && e == ZMember(vs[i].createdAt, vs[i].id)
  {
    if i :| 0 <= i < |vs| && e == ZMember(vs[i].createdAt, vs[i].id) {
      assert Entries(vs)[i] == e;
    }
  }

  /** A rebuilt timeline holds the newest `cap` rows, or the sentinel when there are none. */
  lemma RebuiltIsNewest(log: seq<Publication>, rows: seq<Item>, cap: nat)
    requires LogOk(log) && RowsOk(log, rows) && 0 < cap
    ensures rows == [] ==> Rebuilt(rows, cap) == [ZMember(0, 0)]
    ensures rows != [] ==> forall e :: e in Rebuilt(rows, cap) <==>
      exists i :: 0 <= i < |Take(rows, cap)| && e == ZMember(Take(rows, cap)[i].createdAt, Take(rows, cap)[i].id)
  {
    FilterAll(rows, Older(None));
    assert ListLatest(rows, None, cap) == Take(rows, cap);
    RebuiltHolds(log, rows, cap);
    if rows == [] {
      RankedUnique(Rebuilt(rows, cap), [ZMember(0, 0)]);
    } else {
      forall e { EntryIn(Take(rows, cap), e); }
    }
  }

  /** A request leaves a timeline that it finds, and makes one when there is none. */
  lemma AnswerLeavesTimeline(w: World, out: seq<Item>, cap: nat, entities: map<nat, Item>, now: int, limit: int,
                             faults: Faults)
    requires LogOk(w.log) && AllLogged(w.log, out)
    ensures Answer(w.timeline, w.rows, entities, cap, now, TextFor(out), limit, faults).1 ==
      if w.timeline == [] && !faults.ensure then Rebuilt(w.rows, cap) else w.timeline
  {
    TextDecodes(w.log, out);
  }

  /** Each served page that does not end the walk adds videos, and a walk has no more videos than its
      first video's id: no walk goes on for ever, however much is published meanwhile. */
  lemma WalkEnds(w: World, k: Walk, cap: nat, entities: map<nat, Item>, now: int, limit: int, faults: Faults)
    requires WorldOk(w) && WalkOk(w, k) && 0 < cap && Enabled(w, k, Ask(entities, now, limit, faults))
    ensures var (r, _) := Answer(w.timeline, w.rows, entities, cap, now, k.text, limit, faults);
      var k' := Received(k, r);
      && r != BadCursor
      && (r.Listed? && !k'.done ==> |k'.out| > |k.out|)
      && |k'.out| <= if k'.out == [] then 0 else k'.out[0].id
  {
    AnswerIsOk(w, k, cap, entities, now, limit, faults);
    AskKeepsWalk(w, k, cap, entities, now, limit, faults);
    var k' := Received(k, Answer(w.timeline, w.rows, entities, cap, now, k.text, limit, faults).0);
    DescendingIsShort(w.log, k'.out);
  }

  function Asks(steps: seq<Step>): nat {
    if steps == [] then 0 else (if steps[0].Ask? then 1 else 0) + Asks(steps[1..])
  }

  /** Neither the database nor the entity reader fails a request. */
  ghost predicate Faultless(steps: seq<Step>) {
    forall step :: step in steps && step.Ask? ==> !step.faults.db && !step.faults.entities
  }

  /** The videos received, and one more for the end. */
  function Progress(k: Walk): nat {
    |k.out| + if k.done then 1 else 0
  }

  lemma AskAdvances(w: World, k: Walk, cap: nat, step: Step)
    requires WorldOk(w) && WalkOk(w, k) && 0 < cap && Enabled(w, k, step) && Faultless([step])
    ensures Progress(Next(w, k, cap, step).1) >= Progress(k) + if step.Ask? then 1 else 0
  {
    if step.Ask? {
      assert step in [step];
      AnswerIsListed(w, k.out, cap, step.entities, step.now, step.limit, step.faults);
      WalkEnds(w, k, cap, step.entities, step.now, step.limit, step.faults);
    }
  }

  lemma {:induction false} RunAdvances(w: World, k: Walk, cap: nat, steps: seq<Step>)
    requires WorldOk(w) && WalkOk(w, k) && 0 < cap && AllEnabled(w, k, cap, steps) && Faultless(steps)
    ensures Progress(Run(w, k, cap, steps).1) >= Progress(k) + Asks(steps)
    decreases |steps|
  {
    if steps != [] {
      var (w', k') := Next(w, k, cap, steps[0]);
      AskAdvances(w, k, cap, steps[0]);
      StepKeepsWalk(w, k, cap, steps[0]);
      RunAdvances(w', k', cap, steps[1..]);
    }
  }

  /** A walk whose requests meet no fault receives a video for each request but its last one, so that it is over at
      the latest one request after its first video's id is used up, whatever happens around it. */
  lemma FaultlessWalkFinishes(w: World, cap: nat, steps: seq<Step>)
    requires WorldOk(w) && 0 < cap && Faultless(steps)
    requires AllEnabled(w, Walk("", [], false, w.next), cap, steps)
    ensures var k' := Run(w, Walk("", [], false, w.next), cap, steps).1;
      var first := if k'.out == [] then 0 else k'.out[0].id;
      && Asks(steps) <= |k'.out| + (if k'.done then 1 else 0)
      && |k'.out| <= first
      && (Asks(steps) > first ==> k'.done)
  {
    var start := Walk("", [], false, w.next);
    RunAdvances(w, start, cap, steps);
    RunKeeps(w, start, cap, steps);
    var (w', k') := Run(w, start, cap, steps);
    DescendingIsShort(w'.log, k'.out);
  }

  lemma {:induction false} DescendingIsShort(log: seq<Publication>, out: seq<Item>)
    requires LogOk(log) && NewestFirst(out) && AllLogged(log, out)
    ensures |out| <= if out == [] then 0 else out[0].id
  {
    if out != [] {
      assert out[0] in out;
      if |out| > 1 {
        assert out[1] in out;
        LoggedOrder(log, out[0], out[1]);
      } else {
        var i :| 0 <= i < |log| && log[i].item == out[0];
      }
      DescendingIsShort(log, out[1..]);
    }
  }

  /** In any reachable state with nothing on the way, each page refines the plain listing. */
  lemma QuietPageRefinesListing(w: World, entities: map<nat, Item>, now: int, cursor: Option<Cursor>, limit: nat,
                                faults: Faults)
    requires WorldOk(w) && Clear(w) && w.next == |w.log| && 0 < limit && RequestOk(w.log, cursor, now)
    requires EntitiesOk(w.log, w.rows, entities) && forall id :: id in entities ==> entities[id] in w.rows
    ensures var b := Page(w.timeline, w.rows, entities, now, cursor, limit, faults);
      var db := ListFromDB(w.rows, cursor, limit, false);
      b.Batch? ==>
        && b.items <= db.items
        && (b.items == [] ==> db.items == [])
        && (NoGhosts(w.timeline, entities) ==> b.items == db.items)
        && (!b.hasMore ==> b.items == db.items && !db.hasMore)
  {
    TimelineAscends(w.log, w.timeline);
    PageRefinesListing(w.log, w.rows, entities, w.timeline, now, cursor, limit, faults);
  }
}
