/** The fixed-window limiter: a Redis counter that starts a window when it is created and
    disappears with its time to live. Times are in milliseconds. */
module RateLimit {
  import opened Sequences

  datatype Window = Window(count: nat, expires: int)

  /** The time to live is sent in whole seconds. */
  function TimeToLive(window: nat): nat {
    window / 1000 * 1000
  }

  /** INCR, then EXPIRE on the first hit, in one script; a time to live of zero deletes the key at once. */
  function Hit(w: Option<Window>, now: int, ttl: nat): (nat, Option<Window>) {
    if w.Some? && now <= w.value.expires then (w.value.count + 1, Some(w.value.(count := w.value.count + 1)))
    else (1, if ttl == 0 then None else Some(Window(1, now + ttl)))
  }

  /** One limited route and subject. */
  class Limiter {
    const max: nat
    const window: nat
    var counter: Option<Window>

    constructor (max: nat, window: nat)
      ensures this.max == max && this.window == window && counter == None
    {
      this.max, this.window, counter := max, window, None;
    }

    method IncrementWithExpire(now: int) returns (n: nat)
      modifies this
      ensures (n, counter) == Hit(old(counter), now, TimeToLive(window))
      ensures old(counter) == None || old(counter).value.expires < now ==>
        n == 1 && counter == if window < 1000 then None else Some(Window(1, now + window - window % 1000))
    {
      n := 1;
      if counter.Some? && now <= counter.value.expires {
        n := counter.value.count + 1;
        counter := Some(counter.value.(count := n));
      } else if window / 1000 == 0 {
        counter := None;
      } else {
        counter := Some(Window(1, now + window / 1000 * 1000));
      }
    }

    /** Without a cache, a subject or an answer from Redis the request passes uncounted. */
    method Limit(hasCache: bool, hasSubject: bool, redisOK: bool, now: int) returns (admitted: bool)
      modifies this
      ensures !(hasCache && hasSubject && redisOK) ==> admitted && counter == old(counter)
      ensures hasCache && hasSubject && redisOK ==>
        var (n, w) := Hit(old(counter), now, TimeToLive(window));
        counter == w && admitted == (n <= max)
      ensures 0 < max && (old(counter) == None || old(counter).value.expires < now) ==> admitted
    {
      if !hasCache || !hasSubject || !redisOK {
        return true;
      }
      var n := IncrementWithExpire(now);
      return n <= max;
    }
  }

  // ---- A sequence of counted requests -----------------------------------------------------------

  ghost predicate InOrder(times: seq<int>) {
    forall i, j :: 0 <= i < j < |times| ==> times[i] <= times[j]
  }

  /** The counter after the first `n` requests. */
  function CounterAfter(times: seq<int>, ttl: nat, n: nat): Option<Window>
    requires n <= |times|
  {
    if n == 0 then None else Hit(CounterAfter(times, ttl, n - 1), times[n - 1], ttl).1
  }

  predicate Admitted(times: seq<int>, ttl: nat, max: nat, i: nat)
    requires i < |times|
  {
    Hit(CounterAfter(times, ttl, i), times[i], ttl).0 <= max
  }

  /** The request that opened the window of request `i`: windows last `ttl` from the request that opens them. */
  function Opener(times: seq<int>, ttl: nat, i: nat): (o: nat)
    requires i < |times|
    ensures o <= i
  {
    if i == 0 then 0
    else
      var o := Opener(times, ttl, i - 1);
      if times[i] <= times[o] + ttl then o else i
  }

  /** The counter holds the number of arrivals in the current window. */
  lemma {:induction false} CounterCountsWindow(times: seq<int>, ttl: nat, i: nat)
    requires i < |times| && 0 < ttl
    ensures var o := Opener(times, ttl, i);
      CounterAfter(times, ttl, i + 1) == Some(Window(i - o + 1, times[o] + ttl))
      && Hit(CounterAfter(times, ttl, i), times[i], ttl).0 == i - o + 1
  {
    if i > 0 {
      CounterCountsWindow(times, ttl, i - 1);
    }
  }

  function Count(times: seq<int>, ttl: nat, max: nat, lo: nat, hi: nat): nat
    requires lo <= hi <= |times|
  {
    if lo == hi then 0 else Count(times, ttl, max, lo, hi - 1) + if Admitted(times, ttl, max, hi - 1) then 1 else 0
  }

  lemma {:induction false} CountSplits(times: seq<int>, ttl: nat, max: nat, lo: nat, mid: nat, hi: nat)
    requires lo <= mid <= hi <= |times|
    ensures Count(times, ttl, max, lo, hi) == Count(times, ttl, max, lo, mid) + Count(times, ttl, max, mid, hi)
  {
    if mid < hi {
      CountSplits(times, ttl, max, lo, mid, hi - 1);
    }
  }

  lemma {:induction false} OpenerIsStable(times: seq<int>, ttl: nat, i: nat, j: nat)
    requires i < |times| && Opener(times, ttl, i) <= j <= i
    ensures Opener(times, ttl, j) == Opener(times, ttl, i)
  {
    if j < i {
      OpenerIsStable(times, ttl, i - 1, j);
    }
  }

  /** A window admits exactly its first `max` arrivals. */
  lemma {:induction false} WindowAdmitsMin(times: seq<int>, ttl: nat, max: nat, i: nat)
    requires i < |times| && 0 < ttl
    ensures var o := Opener(times, ttl, i);
      Count(times, ttl, max, o, i + 1) == if i + 1 - o < max then i + 1 - o else max
  {
    var o := Opener(times, ttl, i);
    CounterCountsWindow(times, ttl, i);
    if o < i {
      OpenerIsStable(times, ttl, i, i - 1);
      WindowAdmitsMin(times, ttl, max, i - 1);
    }
  }

  /** Windows open more than `ttl` apart. */
  lemma {:induction false} NextWindowIsLater(times: seq<int>, ttl: nat, i: nat)
    requires i < |times|
    ensures var o := Opener(times, ttl, i); 0 < o ==> times[o] > times[Opener(times, ttl, o - 1)] + ttl
  {
    if i > 0 && Opener(times, ttl, i) != i {
      NextWindowIsLater(times, ttl, i - 1);
    }
  }

  /** Any tail of a window admits at most the maximum. */
  lemma PartOfWindow(times: seq<int>, ttl: nat, max: nat, lo: nat, i: nat)
    requires 0 < ttl && i < |times| && Opener(times, ttl, i) <= lo <= i
    ensures Count(times, ttl, max, lo, i + 1) <= max
  {
    WindowAdmitsMin(times, ttl, max, i);
    CountSplits(times, ttl, max, Opener(times, ttl, i), lo, i + 1);
  }

  /** A request that opens a window is later than every request before it. */
  lemma OpenerIsLater(times: seq<int>, ttl: nat, lo: nat, p: nat)
    requires InOrder(times) && lo < p < |times| && Opener(times, ttl, p) == p
    ensures times[lo] < times[p]
  {}

  lemma {:induction false} OpenerOpens(times: seq<int>, ttl: nat, i: nat)
    requires i < |times|
    ensures Opener(times, ttl, Opener(times, ttl, i)) == Opener(times, ttl, i)
  {
    OpenerIsStable(times, ttl, i, Opener(times, ttl, i));
  }

  /** The window before that of request `i` opened no later than any request at most `ttl + 1` before `i`. */
  lemma EarlierWindowOpensFirst(times: seq<int>, ttl: nat, lo: nat, i: nat)
    requires InOrder(times) && i < |times| && lo < Opener(times, ttl, i)
    requires times[i] - times[lo] <= ttl + 1
    ensures Opener(times, ttl, Opener(times, ttl, i) - 1) <= lo
  {
    var o := Opener(times, ttl, i);
    var p := Opener(times, ttl, o - 1);
    NextWindowIsLater(times, ttl, i);
    assert times[o] <= times[i];
    if lo < p {
      OpenerOpens(times, ttl, o - 1);
      OpenerIsLater(times, ttl, lo, p);
      assert false;
    }
  }

  lemma TwoWindows(times: seq<int>, ttl: nat, max: nat, lo: nat, mid: nat, i: nat)
    requires 0 < ttl && i < |times| && lo < mid <= i
    requires Opener(times, ttl, i) <= mid && Opener(times, ttl, mid - 1) <= lo
    ensures Count(times, ttl, max, lo, i + 1) <= 2 * max
  {
    PartOfWindow(times, ttl, max, lo, mid - 1);
    PartOfWindow(times, ttl, max, mid, i);
    CountSplits(times, ttl, max, lo, mid, i + 1);
  }

  /** A stretch of requests at most a millisecond longer than a window admits at most twice the maximum. */
  lemma AtMostTwoWindows(times: seq<int>, ttl: nat, max: nat, lo: nat, i: nat)
    requires InOrder(times) && 0 < ttl && lo <= i < |times|
    requires times[i] - times[lo] <= ttl + 1
    ensures Count(times, ttl, max, lo, i + 1) <= 2 * max
  {
    if lo < Opener(times, ttl, i) {
      EarlierWindowOpensFirst(times, ttl, lo, i);
      TwoWindows(times, ttl, max, lo, Opener(times, ttl, i), i);
    } else {
      PartOfWindow(times, ttl, max, lo, i);
    }
  }

  /** With a maximum of one only openers are admitted: nothing after them. */
  lemma NothingAfterOpener(times: seq<int>, ttl: nat, lo: nat, i: nat)
    requires 0 < ttl && i < |times| && Opener(times, ttl, i) < lo <= i
    ensures Count(times, ttl, 1, lo, i + 1) == 0
  {
    var o := Opener(times, ttl, i);
    WindowAdmitsMin(times, ttl, 1, i);
    OpenerIsStable(times, ttl, i, lo - 1);
    WindowAdmitsMin(times, ttl, 1, lo - 1);
    CountSplits(times, ttl, 1, o, lo, i + 1);
  }

  lemma EarlierIsBefore(times: seq<int>, q: nat, lo: nat)
    requires InOrder(times) && q < |times| && lo < |times| && times[q] < times[lo]
    ensures q < lo
  {}

  lemma BeforeTwoWindows(times: seq<int>, ttl: nat, lo: nat, o: nat, p: nat)
    requires InOrder(times) && 0 < ttl && lo < p < o < |times|
    requires p == Opener(times, ttl, o - 1) && times[o] > times[p] + ttl
    requires times[o] - times[lo] <= 2 * ttl + 1
    ensures Opener(times, ttl, p - 1) < lo
  {
    NextWindowIsLater(times, ttl, o - 1);
    EarlierIsBefore(times, Opener(times, ttl, p - 1), lo);
  }

  lemma OnlyTheLastTwo(times: seq<int>, ttl: nat, lo: nat, p: nat, o: nat, i: nat)
    requires 0 < ttl && lo < p < o <= i < |times|
    requires Opener(times, ttl, i) == o && Opener(times, ttl, o - 1) == p && Opener(times, ttl, p - 1) < lo
    ensures Count(times, ttl, 1, lo, i + 1) <= 2
  {
    NothingAfterOpener(times, ttl, lo, p - 1);
    TwoWindows(times, ttl, 1, p, o, i);
    CountSplits(times, ttl, 1, lo, p, i + 1);
  }

  /** With a maximum of one, three admissions need two full windows between them. */
  lemma OneEachWindow(times: seq<int>, ttl: nat, lo: nat, i: nat)
    requires InOrder(times) && 0 < ttl && lo <= i < |times|
    requires times[i] - times[lo] <= 2 * ttl + 1
    ensures Count(times, ttl, 1, lo, i + 1) <= 2
  {
    var o := Opener(times, ttl, i);
    if o <= lo {
      PartOfWindow(times, ttl, 1, lo, i);
    } else if Opener(times, ttl, o - 1) <= lo {
      TwoWindows(times, ttl, 1, lo, o, i);
    } else {
      var p := Opener(times, ttl, o - 1);
      NextWindowIsLater(times, ttl, i);
      assert times[o] <= times[i];
      BeforeTwoWindows(times, ttl, lo, o, p);
      OnlyTheLastTwo(times, ttl, lo, p, o, i);
    }
  }

  /** The requests whose times fall in `[from, upTo]`. */
  ghost predicate Covers(times: seq<int>, lo: nat, hi: nat, from: int, upTo: int) {
    lo <= hi <= |times| && forall i :: 0 <= i < |times| ==> (from <= times[i] <= upTo <==> lo <= i < hi)
  }

  /** No interval as long as the configured window, wherever it starts, lets through more than twice the maximum. */
  ghost predicate Bounded(window: nat, max: nat) {
    forall times: seq<int>, lo: nat, hi: nat, from: int, upTo: int ::
      InOrder(times) && upTo - from <= window && Covers(times, lo, hi, from, upTo) ==>
        Count(times, TimeToLive(window), max, lo, hi) <= 2 * max
  }

  /** The bound holds for windows of whole seconds, and from one second on for a maximum of one. */
  lemma WholeSecondsAreBounded(window: nat, max: nat)
    requires 1000 <= window && (window % 1000 <= 1 || max == 1)
    ensures Bounded(window, max)
  {
    var ttl := TimeToLive(window);
    forall times: seq<int>, lo: nat, hi: nat, from: int, upTo: int
      | InOrder(times) && upTo - from <= window && Covers(times, lo, hi, from, upTo)
      ensures Count(times, ttl, max, lo, hi) <= 2 * max
    {
      if lo < hi {
        assert from <= times[lo] && times[hi - 1] <= upTo;
        if max == 1 { OneEachWindow(times, ttl, lo, hi - 1); } else { AtMostTwoWindows(times, ttl, max, lo, hi - 1); }
      }
    }
  }

  /** A window under a second has no time to live: then every request is the first of its window. */
  lemma {:induction false} SubSecondWindowNeverLimits(times: seq<int>, window: nat, max: nat, hi: nat)
    requires window < 1000 && 0 < max && hi <= |times|
    ensures Count(times, TimeToLive(window), max, 0, hi) == hi
    ensures CounterAfter(times, TimeToLive(window), hi) == None
  {
    if hi > 0 {
      SubSecondWindowNeverLimits(times, window, max, hi - 1);
    }
  }

  lemma SubSecondIsUnbounded(window: nat, max: nat)
    requires window < 1000 && 0 < max
    ensures !Bounded(window, max)
  {
    var times := seq(2 * max + 1, i => 0);
    SubSecondWindowNeverLimits(times, window, max, |times|);
    assert Covers(times, 0, |times|, 0, 0);
  }

  /** One request opens a window and one comes at its very end; then come two full windows. */
  function Crowd(ttl: nat, max: nat): seq<int> {
    seq(2 * max + 2, i => if i == 0 then 0 else if i == 1 then ttl else if i < max + 2 then ttl + 1 else 2 * ttl + 2)
  }

  lemma {:induction false} CrowdOpeners(ttl: nat, max: nat, i: nat)
    requires 0 < ttl && i < 2 * max + 2
    ensures Opener(Crowd(ttl, max), ttl, i) == if i <= 1 then 0 else if i < max + 2 then 2 else max + 2
  {
    if i > 0 {
      CrowdOpeners(ttl, max, i - 1);
    }
  }

  lemma CrowdsSecondIsAdmitted(ttl: nat, max: nat)
    requires 0 < ttl && 2 <= max
    ensures Count(Crowd(ttl, max), ttl, max, 1, 2) == 1
  {
    var times := Crowd(ttl, max);
    CrowdOpeners(ttl, max, 0);
    CrowdOpeners(ttl, max, 1);
    WindowAdmitsMin(times, ttl, max, 0);
    WindowAdmitsMin(times, ttl, max, 1);
    CountSplits(times, ttl, max, 0, 1, 2);
  }

  lemma LaterCrowdsAreAdmitted(ttl: nat, max: nat)
    requires 0 < ttl && 2 <= max
    ensures Count(Crowd(ttl, max), ttl, max, 2, max + 2) == max
    ensures Count(Crowd(ttl, max), ttl, max, max + 2, 2 * max + 2) == max
  {
    var times := Crowd(ttl, max);
    CrowdOpeners(ttl, max, max + 1);
    CrowdOpeners(ttl, max, 2 * max + 1);
    WindowAdmitsMin(times, ttl, max, max + 1);
    WindowAdmitsMin(times, ttl, max, 2 * max + 1);
  }

  lemma CrowdIsAdmitted(ttl: nat, max: nat)
    requires 0 < ttl && 2 <= max
    ensures Count(Crowd(ttl, max), ttl, max, 1, 2 * max + 2) == 2 * max + 1
  {
    var times := Crowd(ttl, max);
    CrowdsSecondIsAdmitted(ttl, max);
    LaterCrowdsAreAdmitted(ttl, max);
    CountSplits(times, ttl, max, 1, 2, max + 2);
    CountSplits(times, ttl, max, 1, max + 2, 2 * max + 2);
  }

  /** The seconds are truncated: a window with milliseconds left over is shorter than configured, and a
      stretch as long as configured can reach into three of them. */
  lemma LeftoverMillisAreUnbounded(window: nat, max: nat)
    requires 1000 <= window && 2 <= window % 1000 && 2 <= max
    ensures !Bounded(window, max)
  {
    var ttl := TimeToLive(window);
    CrowdIsAdmitted(ttl, max);
    assert InOrder(Crowd(ttl, max));
    assert Covers(Crowd(ttl, max), 1, 2 * max + 2, ttl, 2 * ttl + 2);
  }

  /** Exactly when a limiter keeps the bound it is configured for. */
  lemma BoundedIff(window: nat, max: nat)
    ensures Bounded(window, max) <==> max == 0 || (1000 <= window && (window % 1000 <= 1 || max == 1))
  {
    if max == 0 {
      NothingAdmitted(window);
    } else if window < 1000 {
      SubSecondIsUnbounded(window, max);
    } else if window % 1000 <= 1 || max == 1 {
      WholeSecondsAreBounded(window, max);
    } else {
      LeftoverMillisAreUnbounded(window, max);
    }
  }

  lemma NothingAdmitted(window: nat)
    ensures Bounded(window, 0)
  {
    forall times: seq<int>, lo: nat, hi: nat, from: int, upTo: int
      | InOrder(times) && upTo - from <= window && Covers(times, lo, hi, from, upTo)
      ensures Count(times, TimeToLive(window), 0, lo, hi) <= 2 * 0
    {
      NoneCounted(times, TimeToLive(window), lo, hi);
    }
  }

  lemma {:induction false} NoneCounted(times: seq<int>, ttl: nat, lo: nat, hi: nat)
    requires lo <= hi <= |times|
    ensures Count(times, ttl, 0, lo, hi) == 0
  {
    if lo < hi {
      NoneCounted(times, ttl, lo, hi - 1);
    }
  }

  // ---- Whole seconds: what the configured window means ----------------------------------------

  /** Request `i`, for a limiter configured with this window. */
  predicate Passes(times: seq<int>, window: nat, max: nat, i: nat)
    requires i < |times|
  {
    Admitted(times, TimeToLive(window), max, i)
  }

  /** How many of the requests from `lo` to `hi - 1` pass. */
  function Passed(times: seq<int>, window: nat, max: nat, lo: nat, hi: nat): nat
    requires lo <= hi <= |times|
  {
    Count(times, TimeToLive(window), max, lo, hi)
  }

  /** Requests `o` to `i` make up a window: the first found none open, and the others come within `window` of it. */
  ghost predicate OneWindow(times: seq<int>, window: nat, o: nat, i: nat) {
    && o <= i < |times| && Opener(times, window, o) == o
    && forall j :: o <= j <= i ==> times[j] <= times[o] + window
  }

  lemma {:induction false} WindowIsOpeners(times: seq<int>, window: nat, o: nat, i: nat)
    requires OneWindow(times, window, o, i)
    ensures Opener(times, window, i) == o
  {
    if o < i {
      WindowIsOpeners(times, window, o, i - 1);
    }
  }

  /** Within the configured window of its opener exactly the first `max` requests pass. */
  lemma WindowPassesMin(times: seq<int>, window: nat, max: nat, o: nat, i: nat)
    requires 0 < window && window % 1000 == 0 && OneWindow(times, window, o, i)
    ensures Passed(times, window, max, o, i + 1) == if i + 1 - o < max then i + 1 - o else max
    ensures Passes(times, window, max, i) <==> i - o < max
  {
    WindowIsOpeners(times, window, o, i);
    WindowAdmitsMin(times, window, max, i);
    CounterCountsWindow(times, window, i);
  }

  /** The first request that comes later than that passes and opens the next window. */
  lemma LaterRequestOpens(times: seq<int>, window: nat, max: nat, o: nat, i: nat)
    requires 0 < window && window % 1000 == 0 && 0 < max && o < i < |times|
    requires OneWindow(times, window, o, i - 1) && times[o] + window < times[i]
    ensures Passes(times, window, max, i) && OneWindow(times, window, i, i)
  {
    WindowIsOpeners(times, window, o, i - 1);
    CounterCountsWindow(times, window, i);
  }

  /** The first request of all opens a window, and every request is in the window that some request opened. */
  lemma EveryRequestHasAWindow(times: seq<int>, window: nat, i: nat) returns (o: nat)
    requires i < |times|
    ensures OneWindow(times, window, 0, 0) && OneWindow(times, window, o, i)
  {
    o := Opener(times, window, i);
    OpenerOpens(times, window, i);
    forall j | o <= j <= i ensures times[j] <= times[o] + window { OpenerIsStable(times, window, i, j); }
  }

  /** For any window, whole seconds or not: a request in whose stretch of the configured length no request came
      before passes. */
  lemma QuietRequestPasses(times: seq<int>, window: nat, max: nat, i: nat)
    requires InOrder(times) && 0 < max && i < |times| && (i > 0 ==> times[i - 1] + window < times[i])
    ensures Passes(times, window, max, i)
  {
    var ttl := TimeToLive(window);
    if window < 1000 {
      SubSecondWindowNeverLimits(times, window, max, i);
    } else {
      CounterCountsWindow(times, ttl, i);
    }
  }
}
