/** How old an answer of the reader can be, over whole timed runs. A read is taken apart: it captures an entity,
    from the database or from Redis, and only later stores it, so that writes can fall in between. */
module Staleness {
  import opened Sequences
  import opened VideoReader

  const L2_TTL: int := 3_600_000

  /** A Redis key with its time to live. */
  datatype Held = Held(blob: Blob, expires: int)

  /** A captured entity on its way into the caches. `overtaken`: the last write of the video since the capture,
      if there was one, left something else in the database. */
  datatype Flight = Flight(id: nat, entity: Entity, redis: bool, at: int, overtaken: bool)

  datatype World = World(now: int, rows: Rows, l1: L1, keys: map<nat, Held>, flights: seq<Flight>)

  /** Redis as it answers now. */
  function Redis(w: World): L2 {
    map id | id in w.keys && w.now <= w.keys[id].expires :: w.keys[id].blob
  }

  datatype Step =
    | Tick(millis: nat)
    | Save(id: nat, row: Video)
    | Drop(id: nat)
    | Evict(id: nat)
    | Damage(id: nat)
    | Forget(id: nat)
    | Query(id: nat)
    | Fetch(id: nat)
    | Land(k: nat, lost: bool)
    | Abort(k: nat)

  /** A write overtakes the captures of its video, unless it stores just what they hold. */
  function Overtake(fs: seq<Flight>, id: nat, after: Option<Entity>): seq<Flight> {
    seq(|fs|, i requires 0 <= i < |fs| =>
      if fs[i].id == id then fs[i].(overtaken := after != Some(fs[i].entity)) else fs[i])
  }

  function Without(fs: seq<Flight>, k: nat): seq<Flight>
    requires k < |fs|
  {
    fs[..k] + fs[k + 1..]
  }

  function Landed(w: World, k: nat, lost: bool): World
    requires k < |w.flights|
  {
    var f := w.flights[k];
    w.(l1 := w.l1[f.id := Timed(f.entity, w.now + L1_TTL)],
       keys := if f.redis || lost then w.keys else w.keys[f.id := Held(Json(f.entity), w.now + L2_TTL)],
       flights := Without(w.flights, k))
  }

  predicate Enabled(w: World, step: Step) {
    match step
    case Save(id, row) => row.id == id && row.deletedAt == None
    case Query(id) => id in w.rows
    case Fetch(id) => Decodes(Redis(w), id)
    case Land(k, _) => k < |w.flights|
    case Abort(k) => k < |w.flights|
    case _ => true
  }

  /** A write stores or deletes a row and removes the Redis key in one step; the local copy stays. */
  function Next(w: World, step: Step): World
    requires Enabled(w, step)
  {
    match step
    case Tick(millis) => w.(now := w.now + millis)
    case Save(id, row) =>
      w.(rows := w.rows[id := row], keys := w.keys - {id}, flights := Overtake(w.flights, id, Some(ToEntity(row))))
    case Drop(id) => w.(rows := w.rows - {id}, keys := w.keys - {id}, flights := Overtake(w.flights, id, None))
    case Evict(id) => w.(keys := w.keys - {id})
    case Damage(id) => w.(keys := w.keys[id := Held(Corrupt, w.now)])
    case Forget(id) => w.(l1 := w.l1 - {id})
    case Query(id) => w.(flights := w.flights + [Flight(id, ToEntity(w.rows[id]), false, w.now, false)])
    case Fetch(id) => w.(flights := w.flights + [Flight(id, Redis(w)[id].entity, true, w.now, false)])
    case Land(k, lost) => Landed(w, k, lost)
    case Abort(k) => w.(flights := Without(w.flights, k))
  }

  /** A query that lands at once leaves the caches as the reader's backfill does. */
  lemma BackfillIsQueryAndLand(w: World, id: nat, lost: bool)
    requires id in w.rows
    ensures var u := Next(Next(w, Query(id)), Land(|w.flights|, lost)); var e := ToEntity(w.rows[id]);
      && u.rows == w.rows && u.now == w.now && u.flights == w.flights
      && u.l1 == w.l1[id := Timed(e, w.now + 5000)]
      && Redis(u) == if lost then Redis(w) else Redis(w)[id := Json(e)]
  {
    var u := Next(Next(w, Query(id)), Land(|w.flights|, lost));
    assert u.flights == w.flights;
    assert Redis(u) == if lost then Redis(w) else Redis(w)[id := Json(ToEntity(w.rows[id]))];
  }

  /** A run from a system with empty caches. */
  ghost predicate IsRun(states: seq<World>, steps: seq<Step>) {
    && |states| == |steps| + 1
    && VideoReader.RowsOk(states[0].rows) && states[0].l1 == map[] && states[0].keys == map[] && states[0].flights == []
    && forall i :: 0 <= i < |steps| ==> Enabled(states[i], steps[i]) && states[i + 1] == Next(states[i], steps[i])
  }

  /** What a read of one id answers: the live local entry, else what Redis decodes to, else the row. */
  function Answer(w: World, id: nat): Option<Video> {
    if Live(w.l1, id, w.now) then Some(ToVideo(w.l1[id].entity))
    else if Decodes(Redis(w), id) then Some(ToVideo(Redis(w)[id].entity))
    else if id in w.rows then Some(w.rows[id])
    else None
  }

  /** Up to state `i`, and no earlier than `since`, the database held this entity. */
  ghost predicate Was(states: seq<World>, i: nat, id: nat, e: Entity, since: int)
    requires i < |states|
  {
    exists j :: 0 <= j <= i && since <= states[j].now && id in states[j].rows && ToEntity(states[j].rows[id]) == e
  }

  lemma WasGrows(states: seq<World>, i: nat, k: nat, id: nat, e: Entity, since: int, earlier: int)
    requires i <= k < |states| && earlier <= since && Was(states, i, id, e, since)
    ensures Was(states, k, id, e, earlier)
  {}

  lemma WasNow(states: seq<World>, i: nat, id: nat, since: int)
    requires i < |states| && id in states[i].rows && since <= states[i].now
    ensures Was(states, i, id, ToEntity(states[i].rows[id]), since)
  {}

  /** The answer for `id` is a row of the last `age` milliseconds; a video that is there is never missing. */
  ghost predicate Recent(states: seq<World>, i: nat, id: nat, age: int)
    requires i < |states|
  {
    match Answer(states[i], id)
    case None => id !in states[i].rows
    case Some(v) => Was(states, i, id, ToEntity(v), states[i].now - age)
  }

  // ---- Runs whose landings are never overtaken ----------------------------------------------------

  /** Nothing lands that a write has overtaken. */
  ghost predicate Clean(states: seq<World>, steps: seq<Step>)
    requires IsRun(states, steps)
  {
    forall i :: 0 <= i < |steps| && steps[i].Land? ==> !states[i].flights[steps[i].k].overtaken
  }

  ghost predicate KeysOk(w: World) {
    forall id :: id in w.keys && w.keys[id].blob.Json? ==>
      id in w.rows && w.keys[id].blob.entity == ToEntity(w.rows[id])
  }

  /** A flight is overtaken exactly when the database no longer holds what it captured. */
  ghost predicate FlightsOk(w: World) {
    forall i :: 0 <= i < |w.flights| ==>
      var f := w.flights[i];
      !f.overtaken <==> f.id in w.rows && ToEntity(w.rows[f.id]) == f.entity
  }

  ghost predicate LocalOk(states: seq<World>, i: nat)
    requires i < |states|
  {
    forall id :: id in states[i].l1 ==>
      Was(states, i, id, states[i].l1[id].entity, states[i].l1[id].expires - L1_TTL)
  }

  ghost predicate Sound(states: seq<World>, i: nat)
    requires i < |states|
  {
    VideoReader.RowsOk(states[i].rows) && KeysOk(states[i]) && FlightsOk(states[i]) && LocalOk(states, i)
  }

  lemma StepKeepsKeys(w: World, step: Step)
    requires Enabled(w, step) && KeysOk(w) && FlightsOk(w) && (step.Land? ==> !w.flights[step.k].overtaken)
    ensures KeysOk(Next(w, step))
  {}

  lemma StepKeepsFlights(w: World, step: Step)
    requires Enabled(w, step) && KeysOk(w) && FlightsOk(w)
    ensures FlightsOk(Next(w, step))
  {}

  lemma StepKeepsLocal(states: seq<World>, i: nat, step: Step)
    requires i + 1 < |states| && Enabled(states[i], step) && states[i + 1] == Next(states[i], step)
    requires Sound(states, i) && (step.Land? ==> !states[i].flights[step.k].overtaken)
    ensures LocalOk(states, i + 1)
  {
    var w, u := states[i], states[i + 1];
    forall id | id in u.l1 ensures Was(states, i + 1, id, u.l1[id].entity, u.l1[id].expires - L1_TTL) {
      if id in w.l1 && u.l1[id] == w.l1[id] {
        WasGrows(states, i, i + 1, id, w.l1[id].entity, w.l1[id].expires - L1_TTL, w.l1[id].expires - L1_TTL);
      } else {
        WasNow(states, i + 1, id, u.l1[id].expires - L1_TTL);
      }
    }
  }

  lemma {:induction false} CleanRunIsSound(states: seq<World>, steps: seq<Step>, i: nat)
    requires IsRun(states, steps) && Clean(states, steps) && i < |states|
    ensures Sound(states, i)
  {
    if i > 0 {
      var k := i - 1;
      CleanRunIsSound(states, steps, k);
      assert Enabled(states[k], steps[k]) && states[k + 1] == Next(states[k], steps[k]);
      StepKeepsKeys(states[k], steps[k]);
      StepKeepsFlights(states[k], steps[k]);
      StepKeepsLocal(states, k, steps[k]);
    }
  }

  /** When no write overtakes a read, every answer is a row of the last five seconds, a video that is there is
      never reported missing, and Redis agrees with the database. */
  lemma AnswersAreRecent(states: seq<World>, steps: seq<Step>, i: nat, id: nat)
    requires IsRun(states, steps) && Clean(states, steps) && i < |states|
    ensures Coherent(Redis(states[i]), states[i].rows) && Recent(states, i, id, 5000)
  {
    CleanRunIsSound(states, steps, i);
    SoundIsRecent(states, i, id);
  }

  lemma EntityStays(e: Entity)
    ensures ToEntity(ToVideo(e)) == e
  {}

  lemma SoundIsRecent(states: seq<World>, i: nat, id: nat)
    requires i < |states| && Sound(states, i)
    ensures Coherent(Redis(states[i]), states[i].rows) && Recent(states, i, id, L1_TTL)
  {
    var w := states[i];
    if Live(w.l1, id, w.now) {
      EntityStays(w.l1[id].entity);
      WasGrows(states, i, i, id, w.l1[id].entity, w.l1[id].expires - L1_TTL, w.now - L1_TTL);
    } else if Decodes(Redis(w), id) {
      EntityStays(Redis(w)[id].entity);
      WasNow(states, i, id, w.now - L1_TTL);
    } else if id in w.rows {
      WasNow(states, i, id, w.now - L1_TTL);
    }
  }

  // ---- A landing that was overtaken -----------------------------------------------------------------

  /** The answer is recent when some time has passed after `after`. */
  ghost predicate RecentAfter(states: seq<World>, after: World, millis: nat, id: nat) {
    Recent(states + [after, after.(now := after.now + millis)], |states| + 1, id, 5000)
  }

  lemma CurrentLandingIsRecent(states: seq<World>, k: nat, lost: bool, millis: nat)
    requires states != [] && Sound(states, |states| - 1) && k < |states[|states| - 1].flights|
    requires !states[|states| - 1].flights[k].overtaken
    ensures var w := states[|states| - 1]; var after := Landed(w, k, lost);
      Coherent(Redis(after), after.rows) && RecentAfter(states, after, millis, w.flights[k].id)
  {
    var n := |states|;
    var w := states[n - 1];
    var after := Landed(w, k, lost);
    var run := states + [after, after.(now := after.now + millis)];
    assert run[n - 1] == w && run[n] == after && run[n + 1] == after.(now := after.now + millis);
    SoundGrows(states, run, n - 1);
    StepKeepsKeys(w, Land(k, lost));
    StepKeepsFlights(w, Land(k, lost));
    StepKeepsLocal(run, n - 1, Land(k, lost));
    StepKeepsKeys(after, Tick(millis));
    StepKeepsFlights(after, Tick(millis));
    StepKeepsLocal(run, n, Tick(millis));
    SoundIsRecent(run, n, w.flights[k].id);
    SoundIsRecent(run, n + 1, w.flights[k].id);
  }

  lemma SoundGrows(states: seq<World>, run: seq<World>, i: nat)
    requires i < |states| <= |run| && Sound(states, i) && forall j :: 0 <= j < |states| ==> run[j] == states[j]
    ensures Sound(run, i)
  {
    forall id | id in run[i].l1 ensures Was(run, i, id, run[i].l1[id].entity, run[i].l1[id].expires - L1_TTL) {
      assert Was(states, i, id, states[i].l1[id].entity, states[i].l1[id].expires - L1_TTL);
    }
  }

  lemma OvertakenBackfillIsIncoherent(w: World, k: nat)
    requires FlightsOk(w) && k < |w.flights| && w.flights[k].overtaken && !w.flights[k].redis
    ensures !Coherent(Redis(Landed(w, k, false)), w.rows)
  {
    assert Decodes(Redis(Landed(w, k, false)), w.flights[k].id);
  }

  /** An overtaken entity in the local cache alone: it does no harm exactly if the write came in this very
      millisecond. */
  lemma OvertakenLocalIff(states: seq<World>, k: nat, lost: bool)
    requires states != [] && Sound(states, |states| - 1) && k < |states[|states| - 1].flights|
    requires var f := states[|states| - 1].flights[k]; f.overtaken && (f.redis || lost)
    ensures var w := states[|states| - 1]; var f := w.flights[k];
      (forall millis: nat :: RecentAfter(states, Landed(w, k, lost), millis, f.id))
      <==> Was(states, |states| - 1, f.id, f.entity, w.now)
  {
    var w := states[|states| - 1];
    var f, after := w.flights[k], Landed(w, k, lost);
    if Was(states, |states| - 1, f.id, f.entity, w.now) {
      forall millis: nat ensures RecentAfter(states, after, millis, f.id) {
        OvertakenThisMillisecond(states, k, lost, millis);
      }
    } else if forall millis: nat :: RecentAfter(states, after, millis, f.id) {
      assert RecentAfter(states, after, L1_TTL, f.id);
      OvertakenEarlier(states, k, lost);
      assert false;
    }
  }

  lemma OvertakenThisMillisecond(states: seq<World>, k: nat, lost: bool, millis: nat)
    requires states != [] && Sound(states, |states| - 1) && k < |states[|states| - 1].flights|
    requires var w := states[|states| - 1]; var f := w.flights[k];
      (f.redis || lost) && Was(states, |states| - 1, f.id, f.entity, w.now)
    ensures var w := states[|states| - 1]; RecentAfter(states, Landed(w, k, lost), millis, w.flights[k].id)
  {
    var n := |states|;
    var w := states[n - 1];
    var f, after := w.flights[k], Landed(w, k, lost);
    var later := after.(now := after.now + millis);
    var run := states + [after, later];
    assert run[n + 1] == later;
    if millis <= L1_TTL {
      var j :| 0 <= j < n && w.now <= states[j].now && f.id in states[j].rows &&
        ToEntity(states[j].rows[f.id]) == f.entity;
      assert run[j] == states[j];
      EntityStays(f.entity);
    } else {
      if Decodes(Redis(later), f.id) { EntityStays(Redis(later)[f.id].entity); }
      if f.id in later.rows { WasNow(run, n + 1, f.id, later.now - L1_TTL); }
    }
  }

  lemma OvertakenEarlier(states: seq<World>, k: nat, lost: bool)
    requires states != [] && FlightsOk(states[|states| - 1]) && k < |states[|states| - 1].flights|
    requires var w := states[|states| - 1]; var f := w.flights[k];
      f.overtaken && !Was(states, |states| - 1, f.id, f.entity, w.now)
    ensures var w := states[|states| - 1]; !RecentAfter(states, Landed(w, k, lost), L1_TTL, w.flights[k].id)
  {
    var n := |states|;
    var w := states[n - 1];
    var f, after := w.flights[k], Landed(w, k, lost);
    var later := after.(now := after.now + L1_TTL);
    var run := states + [after, later];
    assert run[n] == after && run[n + 1] == later && run[..n] == states;
    EntityStays(f.entity);
    if Was(run, n + 1, f.id, f.entity, w.now) {
      WasBefore(states, run, f.id, f.entity, w.now);
    }
  }

  lemma WasBefore(states: seq<World>, run: seq<World>, id: nat, e: Entity, since: int)
    requires states != [] && |run| == |states| + 2 && run[..|states|] == states && Was(run, |states| + 1, id, e, since)
    requires forall j :: |states| <= j < |run| ==> !(id in run[j].rows && ToEntity(run[j].rows[id]) == e)
    ensures Was(states, |states| - 1, id, e, since)
  {
    var j :| 0 <= j <= |states| + 1 && since <= run[j].now && id in run[j].rows && ToEntity(run[j].rows[id]) == e;
    assert run[..|states|][j] == run[j];
  }

  /** Exactly when a read that was taken apart does no harm. After any clean run, a landing keeps Redis in agreement
      with the database and the answers recent, however long one waits, if and only if no write overtook it, or it
      goes into the local cache alone and the write came in this very millisecond. */
  lemma LandingIsSafeIff(states: seq<World>, steps: seq<Step>, k: nat, lost: bool)
    requires IsRun(states, steps) && Clean(states, steps) && k < |states[|states| - 1].flights|
    ensures var w := states[|states| - 1]; var f, after := w.flights[k], Landed(w, k, lost);
      Coherent(Redis(after), after.rows) && (forall millis: nat :: RecentAfter(states, after, millis, f.id))
      <==> !f.overtaken || ((f.redis || lost) && Was(states, |states| - 1, f.id, f.entity, w.now))
  {
    var w := states[|states| - 1];
    var f := w.flights[k];
    CleanRunIsSound(states, steps, |states| - 1);
    if !f.overtaken {
      forall millis: nat ensures RecentAfter(states, Landed(w, k, lost), millis, f.id) {
        CurrentLandingIsRecent(states, k, lost, millis);
      }
      CurrentLandingIsRecent(states, k, lost, 0);
    } else if f.redis || lost {
      OvertakenLocalIff(states, k, lost);
    } else {
      OvertakenBackfillIsIncoherent(w, k);
    }
  }

  // ---- The bound that every run keeps -----------------------------------------------------------------

  /** No read is on its way for longer than `delay`. */
  ghost predicate Timely(states: seq<World>, delay: nat) {
    forall i, k :: 0 <= i < |states| && 0 <= k < |states[i].flights| ==>
      states[i].now - states[i].flights[k].at <= delay
  }

  ghost predicate FlightsFrom(states: seq<World>, i: nat, delay: nat)
    requires i < |states|
  {
    forall k :: 0 <= k < |states[i].flights| ==> FlightFrom(states, i, states[i].flights[k], delay)
  }

  ghost predicate FlightFrom(states: seq<World>, i: nat, f: Flight, delay: nat)
    requires i < |states|
  {
    Was(states, i, f.id, f.entity, if f.redis then f.at - L2_TTL - delay else f.at)
  }

  ghost predicate KeysFrom(states: seq<World>, i: nat, delay: nat)
    requires i < |states|
  {
    forall id :: id in states[i].keys && states[i].keys[id].blob.Json? ==>
      Was(states, i, id, states[i].keys[id].blob.entity, states[i].keys[id].expires - L2_TTL - delay)
  }

  ghost predicate LocalFrom(states: seq<World>, i: nat, delay: nat)
    requires i < |states|
  {
    forall id :: id in states[i].l1 ==>
      Was(states, i, id, states[i].l1[id].entity, states[i].l1[id].expires - L1_TTL - L2_TTL - 2 * delay)
  }

  ghost predicate Traced(states: seq<World>, i: nat, delay: nat)
    requires i < |states|
  {
    && VideoReader.RowsOk(states[i].rows) && FlightsFrom(states, i, delay)
    && KeysFrom(states, i, delay) && LocalFrom(states, i, delay)
  }

  /** A flight that a step did not start was on its way before it. */
  lemma FlightBefore(w: World, step: Step, k: nat) returns (j: nat)
    requires Enabled(w, step) && k < |Next(w, step).flights| && !((step.Query? || step.Fetch?) && k == |w.flights|)
    ensures j < |w.flights|
    ensures var f := Next(w, step).flights[k]; f == w.flights[j].(overtaken := f.overtaken)
  {
    j := if (step.Land? || step.Abort?) && k >= step.k then k + 1 else k;
  }

  lemma FlightStaysTraced(states: seq<World>, i: nat, f: Flight, g: Flight, delay: nat)
    requires i + 1 < |states| && FlightFrom(states, i, f, delay) && g == f.(overtaken := g.overtaken)
    ensures FlightFrom(states, i + 1, g, delay)
  {}

  lemma FlightsStayTraced(states: seq<World>, i: nat, step: Step, delay: nat)
    requires i + 1 < |states| && Enabled(states[i], step) && states[i + 1] == Next(states[i], step)
    requires Traced(states, i, delay)
    ensures FlightsFrom(states, i + 1, delay)
  {
    var w, u := states[i], states[i + 1];
    forall k | 0 <= k < |u.flights| ensures FlightFrom(states, i + 1, u.flights[k], delay) {
      var f := u.flights[k];
      if step.Query? && k == |w.flights| {
        WasNow(states, i + 1, f.id, f.at);
      } else if step.Fetch? && k == |w.flights| {
        WasGrows(states, i, i + 1, f.id, f.entity, w.keys[f.id].expires - L2_TTL - delay, f.at - L2_TTL - delay);
      } else {
        var j := FlightBefore(w, step, k);
        FlightStaysTraced(states, i, w.flights[j], f, delay);
      }
    }
  }

  lemma LandedIsTraced(states: seq<World>, i: nat, k: nat, lost: bool, delay: nat)
    requires i + 1 < |states| && k < |states[i].flights| && states[i + 1] == Landed(states[i], k, lost)
    requires FlightsFrom(states, i, delay) && states[i].now - states[i].flights[k].at <= delay
    ensures var f, now := states[i].flights[k], states[i].now;
      Was(states, i + 1, f.id, f.entity, now - L2_TTL - 2 * delay) &&
      (!f.redis ==> Was(states, i + 1, f.id, f.entity, now - delay))
  {
    assert FlightFrom(states, i, states[i].flights[k], delay);
  }

  lemma CachesStayTraced(states: seq<World>, i: nat, step: Step, delay: nat)
    requires i + 1 < |states| && Enabled(states[i], step) && states[i + 1] == Next(states[i], step)
    requires Traced(states, i, delay)
    requires step.Land? ==> states[i].now - states[i].flights[step.k].at <= delay
    ensures KeysFrom(states, i + 1, delay) && LocalFrom(states, i + 1, delay)
  {
    var w, u := states[i], states[i + 1];
    if step.Land? { LandedIsTraced(states, i, step.k, step.lost, delay); }
    forall id | id in u.keys && u.keys[id].blob.Json?
      ensures Was(states, i + 1, id, u.keys[id].blob.entity, u.keys[id].expires - L2_TTL - delay)
    {
      if id in w.keys && u.keys[id] == w.keys[id] {
        assert Was(states, i, id, w.keys[id].blob.entity, w.keys[id].expires - L2_TTL - delay);
      }
    }
    forall id | id in u.l1
      ensures Was(states, i + 1, id, u.l1[id].entity, u.l1[id].expires - L1_TTL - L2_TTL - 2 * delay)
    {
      if id in w.l1 && u.l1[id] == w.l1[id] {
        assert Was(states, i, id, w.l1[id].entity, w.l1[id].expires - L1_TTL - L2_TTL - 2 * delay);
      }
    }
  }

  lemma {:induction false} RunIsTraced(states: seq<World>, steps: seq<Step>, i: nat, delay: nat)
    requires IsRun(states, steps) && Timely(states, delay) && i < |states|
    ensures Traced(states, i, delay)
  {
    if i > 0 {
      var k := i - 1;
      RunIsTraced(states, steps, k, delay);
      assert Enabled(states[k], steps[k]) && states[k + 1] == Next(states[k], steps[k]);
      FlightsStayTraced(states, k, steps[k], delay);
      CachesStayTraced(states, k, steps[k], delay);
    }
  }

  /** In every run, however writes and reads interleave, an answer is a row that the database held within the life of
      a Redis key, plus five seconds, plus twice the time a read may take; a video that is there is never missing. */
  lemma AnswersAreBounded(states: seq<World>, steps: seq<Step>, i: nat, id: nat, delay: nat)
    requires IsRun(states, steps) && Timely(states, delay) && i < |states|
    ensures Recent(states, i, id, 3_605_000 + 2 * delay)
  {
    RunIsTraced(states, steps, i, delay);
    var w, age := states[i], L2_TTL + L1_TTL + 2 * delay;
    if Live(w.l1, id, w.now) {
      EntityStays(w.l1[id].entity);
      WasGrows(states, i, i, id, w.l1[id].entity, w.l1[id].expires - age, w.now - age);
    } else if Decodes(Redis(w), id) {
      EntityStays(Redis(w)[id].entity);
      WasGrows(states, i, i, id, Redis(w)[id].entity, w.keys[id].expires - L2_TTL - delay, w.now - age);
    } else if id in w.rows {
      WasNow(states, i, id, w.now - age);
    }
  }

  // ---- The bound is reached -----------------------------------------------------------------------------

  /** A query, a write in the same millisecond, the backfill; Redis keeps the old row for an hour, and the last
      read of it fills the local cache for five seconds more. */
  function StaleSteps(first: Video, second: Video): seq<Step> {
    [Query(first.id), Save(first.id, second), Land(0, false), Tick(L2_TTL), Fetch(first.id), Land(0, false),
     Tick(L1_TTL)]
  }

  function StaleStates(first: Video, second: Video): seq<World> {
    var id, e := first.id, ToEntity(first);
    var before, after := map[id := first], map[id := second];
    var keys := map[id := Held(Json(e), L2_TTL)];
    [World(0, before, map[], map[], []),
     World(0, before, map[], map[], [Flight(id, e, false, 0, false)]),
     World(0, after, map[], map[], [Flight(id, e, false, 0, true)]),
     World(0, after, map[id := Timed(e, L1_TTL)], keys, []),
     World(L2_TTL, after, map[id := Timed(e, L1_TTL)], keys, []),
     World(L2_TTL, after, map[id := Timed(e, L1_TTL)], keys, [Flight(id, e, true, L2_TTL, false)]),
     World(L2_TTL, after, map[id := Timed(e, L2_TTL + L1_TTL)], keys, []),
     World(L2_TTL + L1_TTL, after, map[id := Timed(e, L2_TTL + L1_TTL)], keys, [])]
  }

  lemma StaleStep(first: Video, second: Video, i: nat)
    requires first.id == second.id && first.deletedAt == None && second.deletedAt == None
    requires ToEntity(first) != ToEntity(second) && i < 7
    ensures var w, step := StaleStates(first, second)[i], StaleSteps(first, second)[i];
      Enabled(w, step) && StaleStates(first, second)[i + 1] == Next(w, step)
  {
    var w := StaleStates(first, second)[i];
    if i == 1 {
      assert Overtake(w.flights, first.id, Some(ToEntity(second))) == StaleStates(first, second)[2].flights;
      assert w.keys - {first.id} == map[];
    }
  }

  lemma StaleRun(first: Video, second: Video)
    requires first.id == second.id && first.deletedAt == None && second.deletedAt == None
    requires ToEntity(first) != ToEntity(second)
    ensures IsRun(StaleStates(first, second), StaleSteps(first, second))
  {
    var states := StaleStates(first, second);
    forall i | 0 <= i < 7
      ensures Enabled(states[i], StaleSteps(first, second)[i])
        && states[i + 1] == Next(states[i], StaleSteps(first, second)[i])
    {
      StaleStep(first, second, i);
    }
  }

  /** That run answers with a row that was replaced an hour and five seconds ago, although every read took no time:
      five seconds are no bound once a write may overtake a read, and the bound above cannot be lowered. */
  lemma OvertakenReadIsStale(first: Video, second: Video)
    requires first.id == second.id && first.deletedAt == None && second.deletedAt == None
    requires ToEntity(first) != ToEntity(second)
    ensures var states := StaleStates(first, second);
      IsRun(states, StaleSteps(first, second)) && Timely(states, 0)
      && !Recent(states, 7, first.id, 5000) && !Recent(states, 7, first.id, 3_604_999)
  {
    var states := StaleStates(first, second);
    StaleRun(first, second);
    EntityStays(ToEntity(first));
    assert Answer(states[7], first.id) == Some(ToVideo(ToEntity(first)));
  }
}
