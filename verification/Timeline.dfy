/** The bounded global timeline: each publish event is inserted and the set is cut back to its
    newest entries. Order, repetition and failed cuts make no difference to where it ends up. */
module Timeline {
  import opened Sequences
  import opened SortedSets

  /** One insert; `trimmed` tells whether the cut that follows it succeeded. */
  datatype Write = Write(event: ZMember, trimmed: bool)

  function Written(s: seq<ZMember>, cap: nat, w: Write): seq<ZMember> {
    var added := Add(s, w.event);
    if w.trimmed then Last(added, cap) else added
  }

  function WrittenAll(cap: nat, ws: seq<Write>): seq<ZMember> {
    if ws == [] then [] else Written(WrittenAll(cap, ws[..|ws| - 1]), cap, ws[|ws| - 1])
  }

  /** Every entry ever written, ranked, never cut. */
  function AllEntries(ws: seq<Write>): seq<ZMember> {
    if ws == [] then [] else Add(AllEntries(ws[..|ws| - 1]), ws[|ws| - 1].event)
  }

  ghost predicate Wrote(ws: seq<Write>, x: ZMember) {
    exists i :: 0 <= i < |ws| && ws[i].event == x
  }

  /** A video's event always carries the same time. */
  ghost predicate Consistent(ws: seq<Write>) {
    forall i, j :: 0 <= i < |ws| && 0 <= j < |ws| && ws[i].event.member == ws[j].event.member
      ==> ws[i].event == ws[j].event
  }

  /** Adds, then cuts by rank. A failure of either command is reported; a failed cut leaves the insert. */
  method WriteTimeline(cache: SortedSet, cap: nat, event: ZMember, addOK: bool, trimOK: bool) returns (ok: bool)
    modifies cache
    ensures ok == (addOK && trimOK)
    ensures cache.entries ==
      if addOK then Written(old(cache.entries), cap, Write(event, trimOK)) else old(cache.entries)
  {
    if !addOK {
      return false;
    }
    cache.ZAdd(event);
    if !trimOK {
      return false;
    }
    TrimKeepsHighest(cache.entries, cap);
    cache.ZRemRangeByRank(0, -(cap as int) - 1);
    return true;
  }

  /** Takes a deleted video out of the timeline; the error of a failed removal is returned. */
  method RemoveVideoCache(cache: SortedSet, id: nat, remOK: bool) returns (ok: bool)
    modifies cache
    ensures ok == remOK
    ensures cache.entries == if remOK then Remove(old(cache.entries), id) else old(cache.entries)
  {
    if remOK {
      cache.ZRem(id);
    }
    return remOK;
  }

  // ---- Cutting a sorted sequence, for any strict order ----------------------------------------

  ghost predicate Strict(lt: (ZMember, ZMember) -> bool) {
    forall x, y :: lt(x, y) ==> !lt(y, x)
  }

  ghost predicate Sorted(s: seq<ZMember>, lt: (ZMember, ZMember) -> bool) {
    forall i, j :: 0 <= i < j < |s| ==> lt(s[i], s[j])
  }

  lemma HighestIsLast(s: seq<ZMember>, lt: (ZMember, ZMember) -> bool, x: ZMember)
    requires Sorted(s, lt) && x in s
    ensures x == s[|s| - 1] || lt(x, s[|s| - 1])
  {}

  lemma DropLast(s: seq<ZMember>, lt: (ZMember, ZMember) -> bool, x: ZMember)
    requires Strict(lt) && Sorted(s, lt) && s != []
    ensures x in s[..|s| - 1] <==> x in s && x != s[|s| - 1]
  {}

  lemma SameHighest(all: seq<ZMember>, top: seq<ZMember>, lt: (ZMember, ZMember) -> bool)
    requires Strict(lt) && Sorted(all, lt) && Sorted(top, lt) && top != []
    requires forall x :: x in top ==> x in all
    requires forall x, y :: x in all && x !in top && y in top ==> lt(x, y)
    ensures all != [] && all[|all| - 1] == top[|top| - 1]
  {
    var m, n := |top| - 1, |all| - 1;
    assert top[m] in top && top[m] in all;
    HighestIsLast(all, lt, top[m]);
    if all[n] in top {
      HighestIsLast(top, lt, all[n]);
    }
  }

  /** `top` is what remains of `all` above the cut: the rest of `all` is below it. */
  lemma {:induction false} CutIsUnique(all: seq<ZMember>, top: seq<ZMember>, lt: (ZMember, ZMember) -> bool)
    requires Strict(lt) && Sorted(all, lt) && Sorted(top, lt)
    requires forall x :: x in top ==> x in all
    requires forall x, y :: x in all && x !in top && y in top ==> lt(x, y)
    ensures |top| <= |all| && Last(all, |top|) == top
  {
    if top != [] {
      var m, n := |top| - 1, |all| - 1;
      SameHighest(all, top, lt);
      forall x ensures x in all[..n] <==> x in all && x != all[n] { DropLast(all, lt, x); }
      forall x ensures x in top[..m] <==> x in top && x != top[m] { DropLast(top, lt, x); }
      CutIsUnique(all[..n], top[..m], lt);
      assert all == all[..n] + [all[n]] && top == top[..m] + [top[m]];
    }
  }

  lemma LastAt(s: seq<ZMember>, cap: nat, i: nat)
    requires i < |s| && |s| - cap <= i
    ensures s[i] in Last(s, cap)
  {
    if cap < |s| {
      assert Last(s, cap)[i - (|s| - cap)] == s[i];
    }
  }

  lemma InLast(s: seq<ZMember>, cap: nat, x: ZMember) returns (i: nat)
    requires x in Last(s, cap)
    ensures i < |s| && |s| - cap <= i && s[i] == x
  {
    var top := Last(s, cap);
    var j :| 0 <= j < |top| && top[j] == x;
    i := j + |s| - |top|;
  }

  /** Whatever lies between the highest `cap` elements and the whole cuts to the same. */
  lemma CutOfPart(s: seq<ZMember>, all: seq<ZMember>, cap: nat, lt: (ZMember, ZMember) -> bool)
    requires Strict(lt) && Sorted(s, lt) && Sorted(all, lt)
    requires forall x :: x in s ==> x in all
    requires forall x :: x in Last(all, cap) ==> x in s
    ensures Last(s, cap) == Last(all, cap)
  {
    var top := Last(all, cap);
    forall x, y | x in s && x !in top && y in top ensures lt(x, y) {
      var i :| 0 <= i < |all| && all[i] == x;
      var j := InLast(all, cap, y);
      assert i < |all| - cap <= j;
    }
    CutIsUnique(s, top, lt);
    if |all| <= cap {
      CutIsUnique(all, s, lt);
    }
  }

  // ---- The timeline between its newest entries and all of them ----------------------------------

  /** A set between the newest `cap` entries of `all` and `all` itself cuts to those entries. */
  ghost predicate Between(s: seq<ZMember>, all: seq<ZMember>, cap: nat) {
    && Ranked(s) && Ranked(all)
    && (forall x :: x in s ==> x in all)
    && (forall x :: x in Last(all, cap) ==> x in s)
  }

  lemma CutBetween(s: seq<ZMember>, all: seq<ZMember>, cap: nat)
    requires Between(s, all, cap)
    ensures Last(s, cap) == Last(all, cap)
    ensures Between(Last(s, cap), all, cap)
  {
    var lt := (x: ZMember, y: ZMember) => Below(x, y);
    forall x: ZMember, y: ZMember ensures !(lt(x, y) && lt(y, x)) { BelowTotal(x, y); }
    CutOfPart(s, all, cap, lt);
    LastRanked(s, cap);
  }

  lemma InsertedTop(s: seq<ZMember>, k: nat, e: ZMember, cap: nat, x: ZMember)
    requires k <= |s| && x in Last(s[..k] + [e] + s[k..], cap) && x != e
    ensures x in Last(s, cap)
  {
    var i := InLast(s[..k] + [e] + s[k..], cap, x);
    LastAt(s, cap, if i < k then i else i - 1);
  }

  lemma AddFresh(all: seq<ZMember>, cap: nat, e: ZMember)
    requires !HasMember(all, e.member)
    ensures forall x :: x in Last(Add(all, e), cap) ==> x == e || x in Last(all, cap)
  {
    RemoveAbsent(all, e.member);
    forall x | x in Last(Add(all, e), cap) && x != e { InsertedTop(all, Slot(all, e), e, cap, x); }
  }

  lemma AddBetween(s: seq<ZMember>, all: seq<ZMember>, cap: nat, e: ZMember)
    requires Between(s, all, cap)
    requires forall x :: x in all && x.member == e.member ==> x == e
    ensures Between(Add(s, e), Add(all, e), cap)
  {
    AddSpec(s, e);
    AddSpec(all, e);
    if e in all {
      AddPresent(all, e);
    } else {
      assert !HasMember(all, e.member);
      AddFresh(all, cap, e);
    }
  }

  lemma WroteStep(ws: seq<Write>, x: ZMember)
    requires ws != []
    ensures Wrote(ws, x) <==> Wrote(ws[..|ws| - 1], x) || ws[|ws| - 1].event == x
  {}

  lemma {:induction false} EntriesAreEvents(ws: seq<Write>)
    requires Consistent(ws)
    ensures Ranked(AllEntries(ws))
    ensures forall x :: x in AllEntries(ws) <==> Wrote(ws, x)
  {
    if ws != [] {
      var n := |ws| - 1;
      EntriesAreEvents(ws[..n]);
      AddSpec(AllEntries(ws[..n]), ws[n].event);
      forall x ensures x in AllEntries(ws) <==> Wrote(ws, x) {
        WroteStep(ws, x);
        if Wrote(ws[..n], x) && x.member == ws[n].event.member {
          assert Wrote(ws, x);
        }
      }
    }
  }

  /** After any writes, in any order and with any repeats and failed cuts, the timeline lies between the
      `cap` newest of all events and all of them; when the last cut succeeded it is exactly the `cap` newest. */
  lemma {:induction false} TimelineIsTopK(cap: nat, ws: seq<Write>)
    requires Consistent(ws)
    ensures Between(WrittenAll(cap, ws), AllEntries(ws), cap)
    ensures ws != [] && ws[|ws| - 1].trimmed ==> WrittenAll(cap, ws) == Last(AllEntries(ws), cap)
  {
    if ws != [] {
      var n := |ws| - 1;
      var before, all := WrittenAll(cap, ws[..n]), AllEntries(ws[..n]);
      TimelineIsTopK(cap, ws[..n]);
      EntriesAreEvents(ws[..n]);
      forall x | x in all && x.member == ws[n].event.member ensures x == ws[n].event {
        var i :| 0 <= i < n && ws[..n][i].event == x;
        assert ws[i].event == x;
      }
      AddBetween(before, all, cap, ws[n].event);
      CutBetween(Add(before, ws[n].event), AllEntries(ws), cap);
    }
  }

  /** Two histories of the same events lead to the same timeline. */
  lemma OrderAndRepeatsDoNotMatter(cap: nat, a: seq<Write>, b: seq<Write>)
    requires Consistent(a) && Consistent(b) && a != [] && b != []
    requires a[|a| - 1].trimmed && b[|b| - 1].trimmed
    requires forall x :: Wrote(a, x) <==> Wrote(b, x)
    ensures WrittenAll(cap, a) == WrittenAll(cap, b)
  {
    TimelineIsTopK(cap, a);
    TimelineIsTopK(cap, b);
    EntriesAreEvents(a);
    EntriesAreEvents(b);
    RankedUnique(AllEntries(a), AllEntries(b));
  }
}
