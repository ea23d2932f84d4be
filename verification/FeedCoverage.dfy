/** What every step does to the timeline's promise, over whole runs: which steps keep every delivered row in reach of
    the pages, and which keep the stronger coverage of everything above the lowest score. */
module FeedCoverage {
  import opened Sequences
  import opened CursorCodec
  import opened SortedSets
  import opened Timeline
  import opened GlobalFeed
  import opened FeedPages
  import opened FeedRuns

  // ---- The steps that do harm -----------------------------------------------------------------------

  /** A later delivered row is not in the timeline. */
  ghost predicate LacksLater(w: World, j: nat) {
    exists i :: j < i < w.next && i < |w.log| && w.log[i].item in w.rows && !HasMember(w.timeline, w.log[i].item.id)
  }

  /** A repeated event shadows a row when it stays: it is not cut, or fewer than `cap` entries are above it. */
  ghost predicate RepeatShadows(w: World, cap: nat, j: nat, trimmed: bool)
    requires j < |w.log| && 0 < cap
  {
    var t := w.timeline;
    (!trimmed || |t| < cap || t[|t| - cap].member < w.log[j].item.id) && LacksLater(w, j)
  }

  /** A dropped event leaves its row shadowed when some video below it is in the timeline and it is not. */
  ghost predicate DropShadows(w: World)
    requires w.next < |w.log|
  {
    var v := w.log[w.next].item;
    && v in w.rows && !HasMember(w.timeline, v.id)
    && exists p :: 0 <= p < |w.timeline| && 0 < w.timeline[p].member < v.id
  }

  ghost predicate DoesHarm(w: World, cap: nat, step: Step)
    requires 0 < cap
  {
    match step
    case Redeliver(j, trimmed) => j < |w.log| && RepeatShadows(w, cap, j, trimmed)
    case Miss => w.next < |w.log| && DropShadows(w)
    case _ => false
  }

  /** A repeated event uncovers a row when it lands under the watermark of a timeline with room to spare, or without
      its cut, while some later delivered row is not in that timeline. */
  ghost predicate RepeatUncovers(w: World, cap: nat, j: nat, trimmed: bool)
    requires j < |w.log|
  {
    && (!trimmed || |w.timeline| < cap)
    && (w.timeline == [] || w.log[j].eventTime < w.timeline[0].score)
    && LacksLater(w, j)
  }

  /** A dropped event leaves its row uncovered, unless the row is gone, the timeline has been rebuilt with it or above
      it, or has not been built at all. */
  ghost predicate DropUncovers(w: World)
    requires w.next < |w.log|
  {
    var v := w.log[w.next].item;
    v in w.rows && w.timeline != [] && v.createdAt >= w.timeline[0].score && !HasMember(w.timeline, v.id)
  }

  ghost predicate UncoversRow(w: World, cap: nat, step: Step) {
    match step
    case Redeliver(j, trimmed) => j < |w.log| && RepeatUncovers(w, cap, j, trimmed)
    case Miss => w.next < |w.log| && DropUncovers(w)
    case _ => false
  }

  ghost predicate AllCovered(w: World) {
    Covered(w.log, w.next, w.rows, w.timeline)
  }

  // ---- One insert -------------------------------------------------------------------------------------

  lemma LastKeepsHigher(a: seq<ZMember>, cap: nat, trimmed: bool, p: nat, m: nat)
    requires Ascending(a) && HasMember(a, m)
    requires var t := if trimmed then Last(a, cap) else a; p < |t| && t[p].member < m
    ensures HasMember(if trimmed then Last(a, cap) else a, m)
  {
    if trimmed && cap < |a| {
      var q :| 0 <= q < |a| && a[q].member == m;
      var d := |a| - cap;
      assert Last(a, cap)[p] == a[d + p] && d + p < q;
      assert Last(a, cap)[q - d] == a[q];
    }
  }

  lemma AddHas(t: seq<ZMember>, e: ZMember, m: nat)
    requires Ranked(t)
    ensures HasMember(Add(t, e), m) <==> m == e.member || HasMember(t, m)
  {
    AddSpec(t, e);
    var a := Add(t, e);
    assert e in a;
    if HasMember(t, m) && m != e.member {
      var i :| 0 <= i < |t| && t[i].member == m;
      assert t[i] in t && t[i] in a;
    }
    if HasMember(a, m) && m != e.member {
      var i :| 0 <= i < |a| && a[i].member == m;
      assert a[i] in a && a[i] in t;
    }
  }

  lemma WrittenIn(t: seq<ZMember>, cap: nat, e: ZMember, trimmed: bool, p: nat)
    requires Ranked(t) && p < |Written(t, cap, Write(e, trimmed))|
    ensures var x := Written(t, cap, Write(e, trimmed))[p]; x == e || x in t
  {
    AddSpec(t, e);
    assert Written(t, cap, Write(e, trimmed))[p] in Add(t, e);
  }

  /** Where a shadow after an insert comes from: the row was missing before, and what is below it was there before or
      is the inserted event. */
  lemma ShadowOrigin(w: World, cap: nat, j: nat, trimmed: bool, next: nat, i: nat, p: nat)
    requires WorldOk(w) && j < |w.log|
    requires Shadows(w.log, next, w.rows, Written(w.timeline, cap, Write(Event(w.log[j]), trimmed)), i, p)
    ensures i != j && !HasMember(w.timeline, w.log[i].item.id)
    ensures var t := Written(w.timeline, cap, Write(Event(w.log[j]), trimmed));
      t[p] == Event(w.log[j]) || exists q :: 0 <= q < |w.timeline| && w.timeline[q] == t[p]
  {
    var e, t := Event(w.log[j]), Written(w.timeline, cap, Write(Event(w.log[j]), trimmed));
    var a := Add(w.timeline, e);
    WrittenKeeps(w.log, w.timeline, cap, j, trimmed);
    TimelineAscends(w.log, a);
    AddHas(w.timeline, e, w.log[i].item.id);
    if HasMember(a, w.log[i].item.id) { LastKeepsHigher(a, cap, trimmed, p, w.log[i].item.id); }
    WrittenIn(w.timeline, cap, e, trimmed, p);
  }

  lemma DeliverStaysClear(w: World, cap: nat, trimmed: bool)
    requires WorldOk(w) && Clear(w) && w.next < |w.log|
    ensures !Shadowed(w.log, w.next + 1, w.rows, Written(w.timeline, cap, Write(Event(w.log[w.next]), trimmed)))
  {
    var t, next := Written(w.timeline, cap, Write(Event(w.log[w.next]), trimmed)), w.next + 1;
    forall i, p ensures !Shadows(w.log, next, w.rows, t, i, p) {
      if Shadows(w.log, next, w.rows, t, i, p) {
        ShadowOrigin(w, cap, w.next, trimmed, next, i, p);
        assert w.log[i].item.id < w.log[w.next].item.id;
        var q :| 0 <= q < |w.timeline| && w.timeline[q] == t[p];
        assert Shadows(w.log, w.next, w.rows, w.timeline, i, q);
      }
    }
  }

  /** An entry that was not there goes to its place among the ids. */
  lemma AddSplits(w: World, j: nat)
    requires WorldOk(w) && j < |w.log| && !HasMember(w.timeline, w.log[j].item.id)
    ensures var t, e := w.timeline, Event(w.log[j]); var s := Slot(t, e);
      Add(t, e) == t[..s] + [e] + t[s..] && Ascending(t[..s] + [e] + t[s..])
  {
    RemoveAbsent(w.timeline, w.log[j].item.id);
    WrittenKeeps(w.log, w.timeline, 0, j, false);
    TimelineAscends(w.log, Add(w.timeline, Event(w.log[j])));
  }

  lemma InsertedStays(t: seq<ZMember>, s: nat, e: ZMember, cap: nat)
    requires s <= |t| && 0 < cap <= |t| && Ascending(t[..s] + [e] + t[s..])
    ensures HasMember(Last(t[..s] + [e] + t[s..], cap), e.member) <==> t[|t| - cap].member < e.member
  {
    var a, d := t[..s] + [e] + t[s..], |t| - cap;
    assert a[s] == e;
    InCut(a, cap, s);
    assert t[d] == if d < s then a[d] else a[d + 1];
  }

  /** Whether the inserted event is there after its cut. */
  lemma EventStays(w: World, cap: nat, j: nat, trimmed: bool)
    requires WorldOk(w) && j < |w.log| && 0 < cap && !HasMember(w.timeline, w.log[j].item.id)
    ensures HasMember(Written(w.timeline, cap, Write(Event(w.log[j]), trimmed)), w.log[j].item.id)
            <==> !trimmed || |w.timeline| < cap || w.timeline[|w.timeline| - cap].member < w.log[j].item.id
  {
    var e, t := Event(w.log[j]), w.timeline;
    AddSplits(w, j);
    if trimmed && cap <= |t| {
      InsertedStays(t, Slot(t, e), e, cap);
    } else {
      assert Add(t, e)[Slot(t, e)] == e;
    }
  }

  lemma InCut(a: seq<ZMember>, cap: nat, s: nat)
    requires Ascending(a) && cap < |a| && s < |a|
    ensures HasMember(Last(a, cap), a[s].member) <==> |a| - cap <= s
  {
    var d := |a| - cap;
    if d <= s { assert Last(a, cap)[s - d] == a[s]; }
    forall n | 0 <= n < cap ensures Last(a, cap)[n] == a[d + n] {}
  }

  // ---- Repeated and dropped events -------------------------------------------------------------------

  lemma RepeatWithoutShadow(w: World, cap: nat, j: nat, trimmed: bool, i: nat, p: nat)
    requires WorldOk(w) && Clear(w) && 0 < cap && j < w.next
    requires Shadows(w.log, w.next, w.rows, Written(w.timeline, cap, Write(Event(w.log[j]), trimmed)), i, p)
    ensures RepeatShadows(w, cap, j, trimmed)
  {
    var t := Written(w.timeline, cap, Write(Event(w.log[j]), trimmed));
    ShadowOrigin(w, cap, j, trimmed, w.next, i, p);
    if q :| 0 <= q < |w.timeline| && w.timeline[q].member == t[p].member {
      assert Shadows(w.log, w.next, w.rows, w.timeline, i, q);
    } else {
      assert t[p] == Event(w.log[j]);
      EventStays(w, cap, j, trimmed);
      assert w.log[j].item.id < w.log[i].item.id;
    }
  }

  lemma RepeatWithShadow(w: World, cap: nat, j: nat, trimmed: bool)
    requires WorldOk(w) && Clear(w) && 0 < cap && j < w.next && RepeatShadows(w, cap, j, trimmed)
    ensures Shadowed(w.log, w.next, w.rows, Written(w.timeline, cap, Write(Event(w.log[j]), trimmed)))
  {
    var e, t := Event(w.log[j]), Written(w.timeline, cap, Write(Event(w.log[j]), trimmed));
    var i :| j < i < w.next && i < |w.log| && w.log[i].item in w.rows && !HasMember(w.timeline, w.log[i].item.id);
    assert w.log[j].item.id < w.log[i].item.id;
    if q :| 0 <= q < |w.timeline| && w.timeline[q].member == e.member {
      assert Shadows(w.log, w.next, w.rows, w.timeline, i, q);
    }
    EventStays(w, cap, j, trimmed);
    var p :| 0 <= p < |t| && t[p].member == e.member;
    forall n | 0 <= n < |t| ensures t[n].member != w.log[i].item.id { WrittenIn(w.timeline, cap, e, trimmed, n); }
    assert Shadows(w.log, w.next, w.rows, t, i, p);
  }

  /** A repeated event, with or without its cut, shadows a row exactly in that case. */
  lemma RepeatStaysClearIff(w: World, cap: nat, j: nat, trimmed: bool)
    requires WorldOk(w) && Clear(w) && 0 < cap && j < w.next
    ensures !Shadowed(w.log, w.next, w.rows, Written(w.timeline, cap, Write(Event(w.log[j]), trimmed)))
            <==> !RepeatShadows(w, cap, j, trimmed)
  {
    var t := Written(w.timeline, cap, Write(Event(w.log[j]), trimmed));
    if RepeatShadows(w, cap, j, trimmed) {
      RepeatWithShadow(w, cap, j, trimmed);
    } else {
      forall i, p ensures !Shadows(w.log, w.next, w.rows, t, i, p) {
        if Shadows(w.log, w.next, w.rows, t, i, p) { RepeatWithoutShadow(w, cap, j, trimmed, i, p); }
      }
    }
  }

  /** A dropped event shadows its row exactly when some video below it is in the timeline without it. */
  lemma DropStaysClearIff(w: World)
    requires WorldOk(w) && Clear(w) && w.next < |w.log|
    ensures !Shadowed(w.log, w.next + 1, w.rows, w.timeline) <==> !DropShadows(w)
  {
    var next := w.next + 1;
    if DropShadows(w) {
      var p :| 0 <= p < |w.timeline| && 0 < w.timeline[p].member < w.log[w.next].item.id;
      assert Shadows(w.log, next, w.rows, w.timeline, w.next, p);
    } else {
      forall i, p ensures !Shadows(w.log, next, w.rows, w.timeline, i, p) {
        assert !Shadows(w.log, w.next, w.rows, w.timeline, i, p);
      }
    }
  }

  // ---- Every other step -------------------------------------------------------------------------------

  lemma PublishStaysClear(w: World, p: Publication)
    requires WorldOk(w) && Clear(w) && LogOk(w.log + [p])
    ensures Clear(w.(log := w.log + [p], rows := [p.item] + w.rows))
  {
    var log, rows := w.log + [p], [p.item] + w.rows;
    forall i, q ensures !Shadows(log, w.next, rows, w.timeline, i, q) {
      assert !Shadows(w.log, w.next, w.rows, w.timeline, i, q);
      if 0 <= i < w.next { assert log[i] == w.log[i] && log[i].item.id < log[|w.log|].item.id; }
    }
  }

  lemma RowsStayClear(w: World, rows: seq<Item>)
    requires WorldOk(w) && Clear(w) && forall v :: v in rows ==> v in w.rows
    ensures Clear(w.(rows := rows))
  {
    forall i, p ensures !Shadows(w.log, w.next, rows, w.timeline, i, p) {
      assert !Shadows(w.log, w.next, w.rows, w.timeline, i, p);
    }
  }

  lemma RemoveHas(t: seq<ZMember>, id: nat, m: nat)
    ensures HasMember(Remove(t, id), m) <==> m != id && HasMember(t, m)
  {
    RemoveSpec(t, id);
    var r := Remove(t, id);
    if HasMember(t, m) && m != id {
      var i :| 0 <= i < |t| && t[i].member == m;
      assert t[i] in t && t[i] in r;
    }
    if HasMember(r, m) {
      var i :| 0 <= i < |r| && r[i].member == m;
      assert r[i] in r && r[i] in t;
    }
  }

  lemma ForgetStaysClear(w: World, id: nat)
    requires WorldOk(w) && Clear(w) && forall v :: v in w.rows ==> v.id != id
    ensures Clear(w.(timeline := Remove(w.timeline, id)))
  {
    var t := Remove(w.timeline, id);
    forall i, p ensures !Shadows(w.log, w.next, w.rows, t, i, p) {
      if Shadows(w.log, w.next, w.rows, t, i, p) {
        RemoveHas(w.timeline, id, w.log[i].item.id);
        RemoveHas(w.timeline, id, t[p].member);
        assert HasMember(t, t[p].member);
        var q :| 0 <= q < |w.timeline| && w.timeline[q].member == t[p].member;
        assert Shadows(w.log, w.next, w.rows, w.timeline, i, q);
      }
    }
  }

  lemma StepStaysClearIff(w: World, k: Walk, cap: nat, step: Step)
    requires WorldOk(w) && Clear(w) && 0 < cap && Possible(w, k, step)
    ensures Clear(Next(w, k, cap, step).0) <==> !DoesHarm(w, cap, step)
  {
    match step
    case Publish(p) => PublishStaysClear(w, p);
    case Deliver(trimmed) => DeliverStaysClear(w, cap, trimmed);
    case Redeliver(j, trimmed) => RepeatStaysClearIff(w, cap, j, trimmed);
    case Miss => DropStaysClearIff(w);
    case DeleteRow(id) =>
      DeleteRowKeeps(w, id);
      RowsStayClear(w, Filter(w.rows, Without(id)));
    case Forget(id) => ForgetStaysClear(w, id);
    case Evict =>
    case Rebuild => RebuildIsClear(w, cap);
    case Ask(_, _, _, _) => RebuildIsClear(w, cap);
  }

  /** In a clear world pages lose nothing, and only there. */
  lemma ClearMeansPagesOk(w: World)
    requires WorldOk(w)
    ensures PagesOk(w.log, w.next, w.rows, w.timeline) <==> Clear(w)
  {
    TimelineAscends(w.log, w.timeline);
    PagesOkIff(w.log, w.next, w.rows, w.timeline);
  }

  ghost predicate PagesLoseNothing(w: World) {
    PagesOk(w.log, w.next, w.rows, w.timeline)
  }

  /** A step leaves a system whose pages lose nothing in such a state exactly when it does no harm: it neither repeats
      nor drops an event so as to shadow a row. */
  lemma StepKeepsPagesIff(w: World, k: Walk, cap: nat, step: Step)
    requires WorldOk(w) && Clear(w) && 0 < cap && Possible(w, k, step)
    ensures PagesLoseNothing(Next(w, k, cap, step).0) <==> !DoesHarm(w, cap, step)
  {
    var w' := Next(w, k, cap, step).0;
    StepKeepsWorld(w, k, cap, step);
    StepStaysClearIff(w, k, cap, step);
    ClearMeansPagesOk(w');
  }

  // ---- Whole runs -----------------------------------------------------------------------------------------

  ghost predicate Harmless(w: World, k: Walk, cap: nat, steps: seq<Step>)
    requires 0 < cap
    decreases |steps|
  {
    steps == [] ||
    (Possible(w, k, steps[0]) && !DoesHarm(w, cap, steps[0]) &&
     var (w', k') := Next(w, k, cap, steps[0]);
     Harmless(w', k', cap, steps[1..]))
  }

  /** A run of possible steps in which pages lose nothing, from the first state to the last. */
  ghost predicate StaysClear(w: World, k: Walk, cap: nat, steps: seq<Step>)
    decreases |steps|
  {
    Clear(w) &&
    (steps == [] ||
     (Possible(w, k, steps[0]) &&
      var (w', k') := Next(w, k, cap, steps[0]);
      StaysClear(w', k', cap, steps[1..])))
  }

  /** Pages lose nothing throughout a run exactly when none of its repeated or dropped events shadows a row. */
  lemma {:induction false} RunStaysClearIff(w: World, k: Walk, cap: nat, steps: seq<Step>)
    requires WorldOk(w) && Clear(w) && 0 < cap
    ensures StaysClear(w, k, cap, steps) <==> Harmless(w, k, cap, steps)
    decreases |steps|
  {
    if steps != [] && Possible(w, k, steps[0]) {
      var (w', k') := Next(w, k, cap, steps[0]);
      StepKeepsWorld(w, k, cap, steps[0]);
      StepStaysClearIff(w, k, cap, steps[0]);
      if Clear(w') { RunStaysClearIff(w', k', cap, steps[1..]); }
    }
  }

  /** In such a run every walk may ask for a page at any time. */
  lemma {:induction false} HarmlessRunIsEnabled(w: World, k: Walk, cap: nat, steps: seq<Step>)
    requires WorldOk(w) && Clear(w) && 0 < cap && Harmless(w, k, cap, steps)
    ensures AllEnabled(w, k, cap, steps) && Clear(Run(w, k, cap, steps).0)
    decreases |steps|
  {
    if steps != [] {
      var (w', k') := Next(w, k, cap, steps[0]);
      StepKeepsWorld(w, k, cap, steps[0]);
      StepStaysClearIff(w, k, cap, steps[0]);
      HarmlessRunIsEnabled(w', k', cap, steps[1..]);
    }
  }

  // ---- Coverage -----------------------------------------------------------------------------------------------

  lemma LastHas(a: seq<ZMember>, cap: nat, j: nat)
    requires Ascending(a) && cap < |a| && j < |a| && Last(a, cap) != [] && a[j].score >= Last(a, cap)[0].score
    ensures HasMember(Last(a, cap), a[j].member)
  {
    var d := |a| - cap;
    assert Last(a, cap)[0] == a[d] && d <= j;
    assert Last(a, cap)[j - d] == a[j];
  }

  /** A cut suffix of a covered set is covered from its own watermark on. */
  lemma SuffixHas(log: seq<Publication>, a: seq<ZMember>, cap: nat, trimmed: bool, i: nat)
    requires LogOk(log) && EntriesOk(log, a) && i < |log| && HasMember(a, log[i].item.id)
    requires var t := if trimmed then Last(a, cap) else a; t != [] && log[i].item.createdAt >= t[0].score
    ensures HasMember(if trimmed then Last(a, cap) else a, log[i].item.id)
  {
    if trimmed && cap < |a| {
      TimelineAscends(log, a);
      var j :| 0 <= j < |a| && a[j].member == log[i].item.id;
      assert Logged(log, log[i].item) && a[j] in a;
      EntryOrder(log, a[j], log[i].item);
      LastHas(a, cap, j);
    }
  }

  lemma LowestIn(a: seq<ZMember>, cap: nat)
    requires Ascending(a) && Last(a, cap) != []
    ensures a != [] && a[0].score <= Last(a, cap)[0].score
  {}

  /** What one insert does to the entries and to the watermark. */
  lemma InsertKeeps(log: seq<Publication>, t: seq<ZMember>, cap: nat, j: nat, trimmed: bool)
    requires LogOk(log) && EntriesOk(log, t) && j < |log|
    ensures var e := Event(log[j]);
      && EntriesOk(log, Add(t, e)) && EntriesOk(log, Written(t, cap, Write(e, trimmed)))
      && Add(t, e) != [] && (Add(t, e)[0] == e || (Add(t, e)[0] in t && t != [] && t[0].score <= Add(t, e)[0].score))
      && (forall m :: HasMember(t, m) ==> HasMember(Add(t, e), m)) && HasMember(Add(t, e), e.member)
  {
    var e := Event(log[j]);
    var a := Add(t, e);
    AddSpec(t, e);
    assert EntryOk(log, e);
    LastRanked(a, cap);
    assert e in a;
    assert a[0] in a;
    TimelineAscends(log, t);
    forall m | HasMember(t, m) ensures HasMember(a, m) {
      var i :| 0 <= i < |t| && t[i].member == m;
      assert t[i] in t;
      var x := if m == e.member then e else t[i];
      assert x in a;
    }
  }

  lemma DeliverCovers(w: World, cap: nat, trimmed: bool)
    requires WorldOk(w) && AllCovered(w) && w.next < |w.log|
    ensures AllCovered(w.(
              timeline := Written(w.timeline, cap, Write(Event(w.log[w.next]), trimmed)), next := w.next + 1))
  {
    var e, j := Event(w.log[w.next]), w.next;
    var a, t := Add(w.timeline, e), Written(w.timeline, cap, Write(e, trimmed));
    InsertKeeps(w.log, w.timeline, cap, j, trimmed);
    TimelineAscends(w.log, a);
    forall i | 0 <= i < j + 1 && w.log[i].item in w.rows && t != [] && w.log[i].item.createdAt >= t[0].score
      ensures HasMember(t, w.log[i].item.id)
    {
      if i < j {
        if trimmed { LowestIn(a, cap); }
        assert w.log[i].eventTime < w.log[j].item.createdAt;
        assert a[0] != e;
      }
      SuffixHas(w.log, a, cap, trimmed, i);
    }
  }

  lemma EntryScoreBound(log: seq<Publication>, e: ZMember, j: nat)
    requires LogOk(log) && EntryOk(log, e) && j < |log| && e.member == log[j].item.id
    ensures e.score <= log[j].eventTime
  {}

  lemma EventBoundsScore(log: seq<Publication>, t: seq<ZMember>, j: nat)
    requires LogOk(log) && EntriesOk(log, t) && j < |log|
    ensures forall i :: 0 <= i < |t| && t[i].member == log[j].item.id ==> t[i].score <= log[j].eventTime
  {
    forall i | 0 <= i < |t| && t[i].member == log[j].item.id ensures t[i].score <= log[j].eventTime {
      EntryScoreBound(log, t[i], j);
    }
  }

  lemma LowEventIsNew(log: seq<Publication>, t: seq<ZMember>, j: nat)
    requires LogOk(log) && EntriesOk(log, t) && j < |log| && (t == [] || log[j].eventTime < t[0].score)
    ensures !HasMember(t, log[j].item.id)
  {
    TimelineAscends(log, t);
    EventBoundsScore(log, t, j);
  }

  lemma AddLowest(t: seq<ZMember>, e: ZMember)
    requires Ranked(t) && !HasMember(t, e.member) && (t == [] || e.score < t[0].score)
    ensures Add(t, e) == [e] + t
  {
    RemoveAbsent(t, e.member);
    SlotUnique(t, e, 0);
  }

  lemma AddAtBottom(log: seq<Publication>, t: seq<ZMember>, j: nat)
    requires LogOk(log) && EntriesOk(log, t) && j < |log|
    requires t == [] || log[j].eventTime < t[0].score
    ensures Add(t, Event(log[j])) == [Event(log[j])] + t
  {
    LowEventIsNew(log, t, j);
    AddLowest(t, Event(log[j]));
  }

  lemma MissedRowUncovers(w: World, cap: nat, j: nat, trimmed: bool, i: nat)
    requires WorldOk(w) && AllCovered(w) && 0 < cap && j < w.next && i < w.next && i != j
    requires w.log[i].item in w.rows && !HasMember(w.timeline, w.log[i].item.id)
    requires var t := Written(w.timeline, cap, Write(Event(w.log[j]), trimmed));
      t != [] && w.log[i].item.createdAt >= t[0].score
    ensures RepeatUncovers(w, cap, j, trimmed)
  {
    var e, t := Event(w.log[j]), w.timeline;
    var a := Add(t, e);
    InsertKeeps(w.log, t, cap, j, trimmed);
    TimelineAscends(w.log, a);
    TimelineAscends(w.log, t);
    if trimmed { LowestIn(a, cap); }
    assert a[0] == e;
    assert j < i;
    AddAtBottom(w.log, t, j);
    assert trimmed ==> |t| < cap;
  }

  /** Out-of-order redelivery, with or without its cut, is harmless exactly when it does not uncover a row. */
  lemma RedeliveryKeepsCoverage(w: World, cap: nat, j: nat, trimmed: bool)
    requires WorldOk(w) && AllCovered(w) && 0 < cap && j < w.next
    ensures Covered(w.log, w.next, w.rows, Written(w.timeline, cap, Write(Event(w.log[j]), trimmed)))
            <==> !RepeatUncovers(w, cap, j, trimmed)
  {
    var e, t := Event(w.log[j]), w.timeline;
    var t' := Written(t, cap, Write(e, trimmed));
    if RepeatUncovers(w, cap, j, trimmed) {
      AddAtBottom(w.log, t, j);
      var i :| j < i < w.next && w.log[i].item in w.rows && !HasMember(t, w.log[i].item.id);
      assert w.log[j].eventTime < w.log[i].item.createdAt;
      assert !HasMember(t', w.log[i].item.id) by {
        assert forall n :: 0 < n < |t'| ==> t'[n] == t[n - 1];
      }
    } else {
      InsertKeeps(w.log, t, cap, j, trimmed);
      forall i | 0 <= i < w.next && w.log[i].item in w.rows && t' != [] && w.log[i].item.createdAt >= t'[0].score
        ensures HasMember(t', w.log[i].item.id)
      {
        if i != j && !HasMember(t, w.log[i].item.id) {
          MissedRowUncovers(w, cap, j, trimmed, i);
        }
        SuffixHas(w.log, Add(t, e), cap, trimmed, i);
      }
    }
  }

  lemma DropCoversIff(w: World)
    requires WorldOk(w) && AllCovered(w) && w.next < |w.log|
    ensures AllCovered(w.(next := w.next + 1)) <==> !DropUncovers(w)
  {}

  lemma PublishCovers(w: World, p: Publication)
    requires WorldOk(w) && AllCovered(w) && LogOk(w.log + [p])
    ensures AllCovered(w.(log := w.log + [p], rows := [p.item] + w.rows))
  {
    var log, rows := w.log + [p], [p.item] + w.rows;
    forall i | 0 <= i < w.next && log[i].item in rows ensures log[i] == w.log[i] && w.log[i].item in w.rows {
      assert log[i].item.id < log[|w.log|].item.id;
    }
  }

  lemma ForgetCovers(w: World, id: nat)
    requires WorldOk(w) && AllCovered(w) && forall v :: v in w.rows ==> v.id != id
    ensures AllCovered(w.(timeline := Remove(w.timeline, id)))
  {
    var t := Remove(w.timeline, id);
    RemoveSpec(w.timeline, id);
    TimelineAscends(w.log, w.timeline);
    forall i | 0 <= i < w.next && w.log[i].item in w.rows && t != [] && w.log[i].item.createdAt >= t[0].score
      ensures HasMember(t, w.log[i].item.id)
    {
      assert t[0] in t;
      RemoveHas(w.timeline, id, w.log[i].item.id);
    }
  }

  lemma NewestRowsCover(log: seq<Publication>, rows: seq<Item>, cap: nat, v: Item)
    requires LogOk(log) && RowsOk(log, rows) && 0 < cap && v in rows
    requires var t := Rebuilt(rows, cap); t != [] && v.createdAt >= t[0].score
    ensures v in ListLatest(rows, None, cap)
  {
    var t, vs := Rebuilt(rows, cap), ListLatest(rows, None, cap);
    ListLatestSpec(rows, None, cap);
    RebuiltHolds(log, rows, cap);
    if v !in vs {
      assert t[0] in t && t[0] in Entries(vs);
      var k :| 0 <= k < |vs| && Entries(vs)[k] == t[0];
      assert vs[k] in vs;
      LoggedOrder(log, vs[k], v);
    }
  }

  lemma RebuildCovers(w: World, cap: nat)
    requires WorldOk(w) && 0 < cap
    ensures AllCovered(w.(timeline := Rebuilt(w.rows, cap)))
  {
    var t, vs := Rebuilt(w.rows, cap), ListLatest(w.rows, None, cap);
    RebuiltHolds(w.log, w.rows, cap);
    forall i | 0 <= i < w.next && w.log[i].item in w.rows && t != [] && w.log[i].item.createdAt >= t[0].score
      ensures HasMember(t, w.log[i].item.id)
    {
      var v := w.log[i].item;
      NewestRowsCover(w.log, w.rows, cap, v);
      var m :| 0 <= m < |vs| && vs[m] == v;
      assert Entries(vs)[m] in t;
    }
  }

  /** A step keeps coverage exactly when it uncovers no row. */
  lemma StepCoversIff(w: World, k: Walk, cap: nat, step: Step)
    requires WorldOk(w) && AllCovered(w) && 0 < cap && Possible(w, k, step)
    ensures AllCovered(Next(w, k, cap, step).0) <==> !UncoversRow(w, cap, step)
  {
    match step
    case Publish(p) => PublishCovers(w, p);
    case Deliver(trimmed) => DeliverCovers(w, cap, trimmed);
    case Redeliver(j, trimmed) => RedeliveryKeepsCoverage(w, cap, j, trimmed);
    case Miss => DropCoversIff(w);
    case DeleteRow(id) => DeleteRowKeeps(w, id);
    case Forget(id) => ForgetCovers(w, id);
    case Evict =>
    case Rebuild => RebuildCovers(w, cap);
    case Ask(_, _, _, _) => RebuildCovers(w, cap);
  }

  ghost predicate Covering(w: World, k: Walk, cap: nat, steps: seq<Step>)
    decreases |steps|
  {
    steps == [] ||
    (Possible(w, k, steps[0]) && !UncoversRow(w, cap, steps[0]) &&
     var (w', k') := Next(w, k, cap, steps[0]);
     Covering(w', k', cap, steps[1..]))
  }

  /** In every run, as long as no repeated or dropped event uncovers a row, every delivered row at or above the lowest
      score of the timeline is in it; and then no page loses a row. */
  lemma {:induction false} CoverageAlwaysHolds(w: World, k: Walk, cap: nat, steps: seq<Step>)
    requires WorldOk(w) && AllCovered(w) && 0 < cap && Covering(w, k, cap, steps)
    ensures AllCovered(Run(w, k, cap, steps).0) && AllEnabled(w, k, cap, steps)
    decreases |steps|
  {
    if steps != [] {
      var (w', k') := Next(w, k, cap, steps[0]);
      StepKeepsWorld(w, k, cap, steps[0]);
      StepCoversIff(w, k, cap, steps[0]);
      TimelineAscends(w.log, w.timeline);
      CoveredIsNotShadowed(w.log, w.next, w.rows, w.timeline);
      CoverageAlwaysHolds(w', k', cap, steps[1..]);
    }
  }

  const EMPTY := World([], 0, [], [])

  lemma EmptyIsOk()
    ensures WorldOk(EMPTY) && AllCovered(EMPTY) && Clear(EMPTY)
  {}

  // ---- Events that come again or not at all: the pages they cost --------------------------------------

  // Three videos; the timeline was evicted and then received only the last of them.
  const V1 := Item(1, 10)
  const V2 := Item(2, 20)
  const V3 := Item(3, 30)
  const EVICTED :=
    World([Publication(V1, 10), Publication(V2, 20), Publication(V3, 30)], 3, [V3, V2, V1], [ZMember(30, 3)])

  lemma RunCons(w: World, k: Walk, cap: nat, step: Step, rest: seq<Step>)
    requires Enabled(w, k, step)
    requires var (w', k') := Next(w, k, cap, step); AllEnabled(w', k', cap, rest)
    ensures AllEnabled(w, k, cap, [step] + rest)
    ensures var (w', k') := Next(w, k, cap, step); Run(w, k, cap, [step] + rest) == Run(w', k', cap, rest)
  {
    assert ([step] + rest)[1..] == rest;
  }

  const P1 := Publication(V1, 10)
  const P2 := Publication(V2, 20)
  const P3 := Publication(V3, 30)

  const PUBLISHED := World([P1, P2, P3], 0, [V3, V2, V1], [])

  lemma LogsAreOk()
    ensures LogOk([P1]) && LogOk([P1, P2]) && LogOk([P1, P2, P3])
  {}

  lemma Publishing(k: Walk, rest: seq<Step>)
    requires AllEnabled(PUBLISHED, k, 1000, rest)
    ensures AllEnabled(EMPTY, k, 1000, [Publish(P1)] + ([Publish(P2)] + ([Publish(P3)] + rest)))
    ensures Run(EMPTY, k, 1000, [Publish(P1)] + ([Publish(P2)] + ([Publish(P3)] + rest)))
            == Run(PUBLISHED, k, 1000, rest)
  {
    var w1, w2 := World([P1], 0, [V1], []), World([P1, P2], 0, [V2, V1], []);
    LogsAreOk();
    PublishesTo(EMPTY, k, P1, w1);
    PublishesTo(w1, k, P2, w2);
    PublishesTo(w2, k, P3, PUBLISHED);
    RunCons(w2, k, 1000, Publish(P3), rest);
    RunCons(w1, k, 1000, Publish(P2), [Publish(P3)] + rest);
    RunCons(EMPTY, k, 1000, Publish(P1), [Publish(P2)] + ([Publish(P3)] + rest));
  }

  lemma PublishesTo(w: World, k: Walk, p: Publication, w': World)
    requires w' == World(w.log + [p], w.next, [p.item] + w.rows, w.timeline) && LogOk(w'.log)
    ensures Enabled(w, k, Publish(p)) && Next(w, k, 1000, Publish(p)) == (w', k)
  {}

  lemma Delivering(k: Walk)
    ensures AllEnabled(PUBLISHED, k, 1000, [Deliver(true)] + ([Deliver(true)] + ([Evict] + ([Deliver(true)] + []))))
    ensures Run(PUBLISHED, k, 1000, [Deliver(true)] + ([Deliver(true)] + ([Evict] + ([Deliver(true)] + []))))
            == (EVICTED, k)
  {
    var t1 := Written([], 1000, Write(Event(P1), true));
    var t2 := Written(t1, 1000, Write(Event(P2), true));
    var w1, w2 := PUBLISHED.(timeline := t1, next := 1), PUBLISHED.(timeline := t2, next := 2);
    var w3 := PUBLISHED.(next := 2);
    AddLowest([], Event(P3));
    assert Written([], 1000, Write(Event(P3), true)) == [ZMember(30, 3)];
    RunCons(w3, k, 1000, Deliver(true), []);
    RunCons(w2, k, 1000, Evict, [Deliver(true)] + []);
    RunCons(w1, k, 1000, Deliver(true), [Evict] + ([Deliver(true)] + []));
    RunCons(PUBLISHED, k, 1000, Deliver(true), [Deliver(true)] + ([Evict] + ([Deliver(true)] + [])));
  }

  /** Three publishes, two deliveries, an eviction and the third delivery lead there from an empty system. */
  lemma EvictedIsReached(k: Walk)
    ensures exists steps: seq<Step> ::
      AllEnabled(EMPTY, k, 1000, steps) && Run(EMPTY, k, 1000, steps) == (EVICTED, k)
  {
    var rest := [Deliver(true)] + ([Deliver(true)] + ([Evict] + ([Deliver(true)] + [])));
    var steps := [Publish(P1)] + ([Publish(P2)] + ([Publish(P3)] + rest));
    Delivering(k);
    Publishing(k, rest);
    assert AllEnabled(EMPTY, k, 1000, steps);
  }

  const UNCOVERED := [ZMember(10, 1), ZMember(30, 3)]

  lemma EvictedEntriesAreOk()
    ensures EntryOk(EVICTED.log, ZMember(30, 3)) && EntryOk(EVICTED.log, ZMember(10, 1))
    ensures EntriesOk(EVICTED.log, [ZMember(30, 3)])
  {
    assert EVICTED.log[0].item == V1 && EVICTED.log[2].item == V3;
  }

  lemma EvictedIsOk()
    ensures WorldOk(EVICTED) && Clear(EVICTED) && RepeatShadows(EVICTED, 1000, 0, true)
  {
    var log := EVICTED.log;
    assert log[0].item == V1 && log[1].item == V2 && log[2].item == V3;
    assert EVICTED.timeline[0].member == 3;
    LogsAreOk();
    EvictedEntriesAreOk();
  }

  lemma EvictedWritten()
    ensures Written(EVICTED.timeline, 1000, Write(Event(EVICTED.log[0]), true)) == UNCOVERED
  {
    EvictedEntriesAreOk();
    LogsAreOk();
    AddAtBottom(EVICTED.log, EVICTED.timeline, 0);
  }

  lemma RedeliveredHot()
    ensures RevRangeByScore([ZMember(10, 1), ZMember(30, 3)], 40, 0, 3) == [ZMember(30, 3), ZMember(10, 1)]
  {}

  lemma RedeliveredEntities()
    ensures VideoIds([ZMember(30, 3), ZMember(10, 1)]) == [3, 1]
    ensures GetByIDs(map[1 := V1, 2 := V2, 3 := V3], [3, 1]) == [V3, V1]
  {
    var hot, ids := [ZMember(30, 3), ZMember(10, 1)], [3 as nat, 1];
    assert hot[..1] == [ZMember(30, 3)] && hot[..1][..0] == [];
    assert VideoIds(hot[..1]) == [3];
    assert ids[..1] == [3] && ids[..1][..0] == [];
    assert GetByIDs(map[1 := V1, 2 := V2, 3 := V3], ids[..1]) == [V3];
  }

  lemma RedeliveredPage(rows: seq<Item>)
    ensures FromHot([ZMember(30, 3), ZMember(10, 1)], rows, map[1 := V1, 2 := V2, 3 := V3], None, 2,
                    Faults(false, false, false, false, false)) == Batch([V3, V1], true)
  {
    RedeliveredEntities();
    assert Take([ZMember(30, 3), ZMember(10, 1)], 2) == [ZMember(30, 3), ZMember(10, 1)];
  }

  lemma SkippingPage()
    ensures Page(UNCOVERED, [V3, V2, V1], map[1 := V1, 2 := V2, 3 := V3], 40, None, 2,
                 Faults(false, false, false, false, false))
            == Batch([V3, V1], true)
  {
    RedeliveredHot();
    RedeliveredPage([V3, V2, V1]);
  }

  /** When the first event comes again, the next page of two skips video 2 and hands out a cursor below it. */
  lemma RedeliveryCanSkipAVideo()
    ensures WorldOk(EVICTED)
    ensures Page(Written(EVICTED.timeline, 1000, Write(Event(EVICTED.log[0]), true)), EVICTED.rows,
                 map[1 := V1, 2 := V2, 3 := V3], 40, None, 2, Faults(false, false, false, false, false))
            == Batch([V3, V1], true)
  {
    EvictedIsOk();
    EvictedWritten();
    SkippingPage();
  }

  /** The second of three events is dropped between the deliveries of the others. */
  lemma DroppedTimeline(k: Walk)
    ensures var w1 := Next(PUBLISHED, k, 1000, Deliver(true)).0;
      var w3 := Next(Next(w1, k, 1000, Miss).0, k, 1000, Deliver(true)).0;
      DropShadows(w1) && w3 == PUBLISHED.(next := 3, timeline := UNCOVERED)
  {
    WrittenFirst();
    WrittenThird();
  }

  lemma WrittenFirst()
    ensures Written([], 1000, Write(Event(P1), true)) == [ZMember(10, 1)]
  {
    AddLowest([], Event(P1));
  }

  lemma WrittenThird()
    ensures Written([ZMember(10, 1)], 1000, Write(Event(P3), true)) == UNCOVERED
  {
    AddHighest([ZMember(10, 1)], Event(P3));
  }

  /** Then the timeline is the same, and so is the page that skips video 2. */
  lemma DroppedEventCanSkipAVideo(k: Walk)
    ensures var w1 := Next(PUBLISHED, k, 1000, Deliver(true)).0;
      var w3 := Next(Next(w1, k, 1000, Miss).0, k, 1000, Deliver(true)).0;
      && DropShadows(w1)
      && Page(w3.timeline, w3.rows, map[1 := V1, 2 := V2, 3 := V3], 40, None, 2,
              Faults(false, false, false, false, false))
         == Batch([V3, V1], true)
  {
    DroppedTimeline(k);
    SkippingPage();
  }

  lemma AddHighest(t: seq<ZMember>, e: ZMember)
    requires Ranked(t) && !HasMember(t, e.member) && t != [] && t[|t| - 1].score < e.score
    ensures Add(t, e) == t + [e]
  {
    RemoveAbsent(t, e.member);
    forall i | 0 <= i < |t| ensures t[i].score < e.score {
      assert i < |t| - 1 ==> Below(t[i], t[|t| - 1]);
    }
    SlotUnique(t, e, |t|);
  }

  // A rebuild of the empty database left the sentinel; two videos are published and the first event is dropped.
  const FRESH := World([P1, P2], 0, [V2, V1], [ZMember(0, 0)])

  lemma FreshIsOk()
    ensures WorldOk(FRESH) && AllCovered(FRESH) && Clear(FRESH)
  {
    LogsAreOk();
    assert FRESH.log[0].item == V1 && FRESH.log[1].item == V2;
    assert EntryOk(FRESH.log, ZMember(0, 0));
  }

  /** Coverage is lost, but no page loses a row: below the missing one there is only the sentinel. */
  lemma UncoveredIsNotShadowed()
    ensures !AllCovered(FRESH.(next := 1)) && Clear(FRESH.(next := 1))
  {
    FreshIsOk();
    FreshDrop();
    DropCoversIff(FRESH);
    DropStaysClearIff(FRESH);
  }

  lemma FreshDrop()
    ensures DropUncovers(FRESH) && !DropShadows(FRESH)
  {
    assert FRESH.timeline[0].member == 0;
  }

  // One video, delivered.
  const SINGLE := World([P1], 1, [V1], [ZMember(10, 1)])

  lemma FirstPageOfOne(now: int)
    requires 10 < now
    ensures Page(SINGLE.timeline, SINGLE.rows, map[1 := V1], now, None, 1, Faults(false, false, false, false, false)) ==
      Batch([V1], true)
  {
    var t := SINGLE.timeline;
    assert Reverse(t[..1]) == t;
    FilterAll(t, KeepsBelow(now, 0));
    assert RevRangeByScore(t, now, 0, 2) == t;
    assert t[..0] == [] && VideoIds(t) == [1];
    assert [1][..0] == [] && GetByIDs(map[1 := V1], [1]) == [V1];
  }

  /** One video and pages of one: the first page is full, so that it announces more, and a second, empty one is needed
      to end the walk. The bound of one request more than the first id is reached. */
  lemma OneVideoTakesTwoPages(now: int)
    requires 10 < now
    ensures var none := Faults(false, false, false, false, false);
      && Page(SINGLE.timeline, SINGLE.rows, map[1 := V1], now, None, 1, none) == Batch([V1], true)
      && Page(SINGLE.timeline, SINGLE.rows, map[1 := V1], now, Some(CursorOf(V1)), 1, none) == Batch([], false)
  {
    FirstPageOfOne(now);
    assert [V1][1..] == [];
    assert Filter([V1], Older(Some(CursorOf(V1)))) == [];
  }
}
