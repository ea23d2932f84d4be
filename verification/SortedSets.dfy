/** The Redis sorted-set commands that the feed uses. A sorted set is the sequence of
    its entries in rank order: ascending score, ties by the member's decimal text. */
module SortedSets {
  import opened Sequences
  import opened Decimals

  datatype ZMember = ZMember(score: int, member: nat)

  predicate Below(a: ZMember, b: ZMember) {
    a.score < b.score || (a.score == b.score && TextBelow(FormatUint(a.member), FormatUint(b.member)))
  }

  ghost predicate Ranked(s: seq<ZMember>) {
    && (forall i, j :: 0 <= i < j < |s| ==> Below(s[i], s[j]))
    && (forall i, j :: 0 <= i < j < |s| ==> s[i].member != s[j].member)
  }

  predicate HasMember(s: seq<ZMember>, m: nat) {
    exists i :: 0 <= i < |s| && s[i].member == m
  }

  // ---- The commands as functions ------------------------------------------------------

  /** The rank at which `e` belongs. */
  function Slot(s: seq<ZMember>, e: ZMember): (k: nat)
    ensures k <= |s| && (forall i :: 0 <= i < k ==> !Below(e, s[i])) && (k < |s| ==> Below(e, s[k]))
  {
    if s == [] || Below(e, s[0]) then 0 else 1 + Slot(s[1..], e)
  }

  function Insert(s: seq<ZMember>, e: ZMember): seq<ZMember> {
    s[..Slot(s, e)] + [e] + s[Slot(s, e)..]
  }

  /** ZREM. */
  function Remove(s: seq<ZMember>, m: nat): seq<ZMember> {
    if s == [] then []
    else if s[0].member == m then Remove(s[1..], m)
    else [s[0]] + Remove(s[1..], m)
  }

  /** ZADD: a member already present moves to its new score. */
  function Add(s: seq<ZMember>, e: ZMember): seq<ZMember> {
    Insert(Remove(s, e.member), e)
  }

  function AddAll(s: seq<ZMember>, es: seq<ZMember>): seq<ZMember> {
    if es == [] then s else Add(AddAll(s, es[..|es| - 1]), es[|es| - 1])
  }

  /** A negative rank counts from the end. */
  function Rank(s: seq<ZMember>, r: int): int {
    if r < 0 then |s| + r else r
  }

  /** ZREMRANGEBYRANK. */
  function RemoveRange(s: seq<ZMember>, start: int, stop: int): seq<ZMember> {
    var lo, hi := Rank(s, start), Rank(s, stop);
    var from, upTo := if lo < 0 then 0 else lo, if hi < |s| then hi else |s| - 1;
    if from > upTo || upTo < 0 then s else s[..from] + s[upTo + 1..]
  }

  /** Number of entries of score at most `max`. */
  function CountAtMost(s: seq<ZMember>, max: int): (k: nat)
    ensures k <= |s| && (forall i :: 0 <= i < k ==> s[i].score <= max) && (k < |s| ==> s[k].score > max)
  {
    if s == [] || s[0].score > max then 0 else 1 + CountAtMost(s[1..], max)
  }

  /** ZRANGE BYSCORE REV: the `2 * limit` highest entries of score at most `maxScore`, highest
      first. Redis reads a count of 0 as "no limit", and a bound of 0 or less stands for +inf. */
  function Fetched(s: seq<ZMember>, maxScore: int, limit: nat): seq<ZMember> {
    var hits := Reverse(if maxScore > 0 then s[..CountAtMost(s, maxScore)] else s);
    if limit == 0 then hits else Take(hits, 2 * limit)
  }

  /** The second filter: an entry at the bound itself, or with an id not below the cursor's, is skipped. */
  predicate Keeps(m: ZMember, maxScore: int, maxID: nat) {
    !(maxScore > 0 && (m.score == maxScore || (maxID > 0 && m.member >= maxID)))
  }

  function KeepsBelow(maxScore: int, maxID: nat): ZMember -> bool {
    (m: ZMember) => Keeps(m, maxScore, maxID)
  }

  /** What the paged read returns: over-fetch, filter, cut (the cut is tested after the first append). */
  function RevRangeByScore(s: seq<ZMember>, maxScore: int, maxID: nat, limit: nat): seq<ZMember> {
    Take(Filter(Fetched(s, maxScore, limit), KeepsBelow(maxScore, maxID)), if limit == 0 then 1 else limit)
  }

  /** ZREVRANGE: ranks from the highest score, both ends included. */
  function RevRange(s: seq<ZMember>, start: int, stop: int): seq<ZMember> {
    var lo, hi := Rank(s, start), Rank(s, stop);
    var from, upTo := if lo < 0 then 0 else lo, if hi < |s| then hi else |s| - 1;
    if from > upTo then [] else Reverse(s)[from..upTo + 1]
  }

  // ---- Rank order ---------------------------------------------------------------------

  lemma BelowTotal(a: ZMember, b: ZMember)
    ensures a.member != b.member ==> Below(a, b) || Below(b, a)
    ensures !(Below(a, b) && Below(b, a))
    ensures !Below(a, a)
  {
    TextBelowTotal(FormatUint(a.member), FormatUint(b.member));
    TextBelowTotal(FormatUint(a.member), FormatUint(a.member));
    FormatHasValue(a.member);
    FormatHasValue(b.member);
  }

  lemma BelowTransitive(a: ZMember, b: ZMember, c: ZMember)
    requires Below(a, b) && Below(b, c)
    ensures Below(a, c)
  {
    if a.score == b.score == c.score {
      TextBelowTransitive(FormatUint(a.member), FormatUint(b.member), FormatUint(c.member));
    }
  }

  /** Rank order is determined by the entries alone. */
  lemma {:induction false} RankedUnique(a: seq<ZMember>, b: seq<ZMember>)
    requires Ranked(a) && Ranked(b)
    requires forall x :: x in a <==> x in b
    ensures a == b
  {
    assert a != [] ==> a[0] in a;
    assert b != [] ==> b[0] in b;
    if a != [] && b != [] {
      assert a[0] in b && b[0] in a;
      BelowTotal(a[0], b[0]);
      assert a[0] == b[0];
      forall x ensures x in a[1..] <==> x in b[1..] {
        BelowTotal(x, x);
        assert x in a[1..] ==> x in a && x != a[0];
        assert x in b[1..] ==> x in b && x != b[0];
        assert x in a && x != a[0] ==> x in a[1..];
        assert x in b && x != b[0] ==> x in b[1..];
      }
      RankedUnique(a[1..], b[1..]);
    }
  }

  lemma {:induction false} RemoveContents(s: seq<ZMember>, m: nat)
    ensures forall x :: x in Remove(s, m) <==> x in s && x.member != m
  {
    if s != [] {
      RemoveContents(s[1..], m);
      assert s == [s[0]] + s[1..];
    }
  }

  lemma RankedCons(x: ZMember, r: seq<ZMember>)
    requires Ranked(r) && forall y :: y in r ==> Below(x, y) && x.member != y.member
    ensures Ranked([x] + r)
  {
    forall i | 0 <= i < |r| ensures Below(x, r[i]) && x.member != r[i].member {
      assert r[i] in r;
    }
  }

  lemma RankedTail(s: seq<ZMember>)
    requires Ranked(s) && s != []
    ensures Ranked(s[1..]) && forall y :: y in s[1..] ==> Below(s[0], y) && s[0].member != y.member
  {}

  lemma {:induction false} RemoveRanked(s: seq<ZMember>, m: nat)
    requires Ranked(s)
    ensures Ranked(Remove(s, m))
  {
    if s != [] {
      RankedTail(s);
      RemoveRanked(s[1..], m);
      RemoveContents(s[1..], m);
      if s[0].member != m { RankedCons(s[0], Remove(s[1..], m)); }
    }
  }

  /** ZREM removes exactly that member's entry and keeps rank order. */
  lemma RemoveSpec(s: seq<ZMember>, m: nat)
    ensures forall x :: x in Remove(s, m) <==> x in s && x.member != m
    ensures Ranked(s) ==> Ranked(Remove(s, m))
  {
    RemoveContents(s, m);
    if Ranked(s) { RemoveRanked(s, m); }
  }

  lemma {:induction false} RemoveAbsent(s: seq<ZMember>, m: nat)
    requires !HasMember(s, m)
    ensures Remove(s, m) == s
  {
    if s != [] {
      assert s[0].member != m;
      forall i | 0 <= i < |s[1..]| ensures s[1..][i].member != m {
        assert s[1..][i] == s[i + 1];
      }
      RemoveAbsent(s[1..], m);
    }
  }

  lemma InsertContents(s: seq<ZMember>, e: ZMember, x: ZMember)
    ensures x in Insert(s, e) <==> x in s || x == e
  {}

  lemma SlotBounds(s: seq<ZMember>, e: ZMember, i: nat)
    requires Ranked(s) && !HasMember(s, e.member) && i < |s|
    ensures if i < Slot(s, e) then Below(s[i], e) else Below(e, s[i])
  {
    var k := Slot(s, e);
    BelowTotal(s[i], e);
    if i > k {
      BelowTransitive(e, s[k], s[i]);
    }
  }

  lemma InsertRanked(s: seq<ZMember>, e: ZMember)
    requires Ranked(s) && !HasMember(s, e.member)
    ensures Ranked(Insert(s, e))
  {
    var k, r := Slot(s, e), Insert(s, e);
    forall i, j | 0 <= i < j < |r| ensures Below(r[i], r[j]) && r[i].member != r[j].member {
      if i == k {
        SlotBounds(s, e, j - 1);
        assert r[j] == s[j - 1];
      } else if j == k {
        SlotBounds(s, e, i);
        assert r[i] == s[i];
      }
    }
  }

  /** ZADD keeps the ranking, replaces the member's entry and touches nothing else. */
  lemma AddSpec(s: seq<ZMember>, e: ZMember)
    requires Ranked(s)
    ensures Ranked(Add(s, e))
    ensures forall x :: x in Add(s, e) <==> x == e || (x in s && x.member != e.member)
  {
    RemoveSpec(s, e.member);
    InsertRanked(Remove(s, e.member), e);
    forall x { InsertContents(Remove(s, e.member), e, x); }
  }

  /** Adding an entry that is already there changes nothing. */
  lemma AddPresent(s: seq<ZMember>, e: ZMember)
    requires Ranked(s) && e in s
    ensures Add(s, e) == s
  {
    AddSpec(s, e);
    RankedUnique(Add(s, e), s);
  }

  ghost predicate Absent(es: seq<ZMember>, m: nat) {
    forall i :: 0 <= i < |es| ==> es[i].member != m
  }

  ghost predicate Distinct(es: seq<ZMember>) {
    forall i, j :: 0 <= i < j < |es| ==> es[i].member != es[j].member
  }

  lemma AddAllStep(s: seq<ZMember>, rest: seq<ZMember>, e: ZMember, r: seq<ZMember>)
    requires Ranked(r) && Absent(rest, e.member)
    requires forall x :: x in r <==> x in rest || (x in s && Absent(rest, x.member))
    ensures Ranked(Add(r, e))
    ensures forall x :: x in Add(r, e) <==> x in rest + [e] || (x in s && Absent(rest + [e], x.member))
  {
    AddSpec(r, e);
    forall x ensures Absent(rest + [e], x) <==> Absent(rest, x) && x != e.member {
      assert (rest + [e])[|rest|] == e;
      assert forall i :: 0 <= i < |rest| ==> (rest + [e])[i] == rest[i];
    }
  }

  lemma AddAllAppend(s: seq<ZMember>, rest: seq<ZMember>, e: ZMember)
    ensures AddAll(s, rest + [e]) == Add(AddAll(s, rest), e)
  {
    assert (rest + [e])[..|rest|] == rest;
  }

  /** A batch of distinct members is stored; entries of other members stay. */
  lemma {:induction false} AddAllSpec(s: seq<ZMember>, es: seq<ZMember>)
    requires Ranked(s) && Distinct(es)
    ensures Ranked(AddAll(s, es))
    ensures forall x :: x in AddAll(s, es) <==> x in es || (x in s && Absent(es, x.member))
  {
    if es != [] {
      var rest, e := es[..|es| - 1], es[|es| - 1];
      assert es == rest + [e];
      AddAllSpec(s, rest);
      AddAllStep(s, rest, e, AddAll(s, rest));
      AddAllAppend(s, rest, e);
    }
  }

  /** Trimming with ranks 0 to -(cap+1) keeps exactly the `cap` highest entries. */
  lemma TrimKeepsHighest(s: seq<ZMember>, cap: nat)
    ensures RemoveRange(s, 0, -(cap as int) - 1) == Last(s, cap)
  {}

  lemma LastRanked(s: seq<ZMember>, cap: nat)
    requires Ranked(s)
    ensures Ranked(Last(s, cap))
  {}

  lemma SlotUnique(s: seq<ZMember>, e: ZMember, k: nat)
    requires k <= |s| && Ranked(s)
    requires forall i :: 0 <= i < k ==> !Below(e, s[i])
    requires k < |s| ==> Below(e, s[k])
    ensures Slot(s, e) == k
  {}

  // ---- The client ---------------------------------------------------------------------

  /** One sorted-set key behind the Redis client. */
  class SortedSet {
    var entries: seq<ZMember>

    constructor ()
      ensures entries == []
    {
      entries := [];
    }

    method ZAdd(e: ZMember)
      modifies this
      ensures entries == Add(old(entries), e)
    {
      entries := Add(entries, e);
    }

    /** Collects the batch and sends it as one command; an empty batch is not sent. */
    method ZAddBatch(members: seq<ZMember>)
      modifies this
      ensures entries == AddAll(old(entries), members)
    {
      if |members| == 0 {
        assert members == [];
        return;
      }
      var vals: seq<ZMember> := [];
      for i := 0 to |members|
        invariant vals == members[..i]
        invariant entries == old(entries)
      {
        vals := vals + [members[i]];
      }
      assert vals == members;
      entries := AddAll(entries, vals);
    }

    method ZRem(m: nat)
      modifies this
      ensures entries == Remove(old(entries), m)
    {
      entries := Remove(entries, m);
    }

    method ZRemRangeByRank(start: int, stop: int)
      modifies this
      ensures entries == RemoveRange(old(entries), start, stop)
    {
      entries := RemoveRange(entries, start, stop);
    }

    /** The paged read: over-fetch, then the second filter. */
    method ZRevRangeByScore(maxScore: int, maxID: nat, limit: nat) returns (out: seq<ZMember>)
      ensures out == RevRangeByScore(entries, maxScore, maxID, limit)
    {
      var res := Fetched(entries, maxScore, limit);
      out := SecondFilter(res, maxScore, maxID, limit);
    }
  }

  /** Skips what the cursor has passed and stops once the page is full. */
  method SecondFilter(res: seq<ZMember>, maxScore: int, maxID: nat, limit: nat) returns (out: seq<ZMember>)
    ensures out == Take(Filter(res, KeepsBelow(maxScore, maxID)), if limit == 0 then 1 else limit)
  {
    var keep := KeepsBelow(maxScore, maxID);
    out := [];
    for i := 0 to |res|
      invariant out == Filter(res[..i], keep)
      invariant |out| == 0 || |out| < limit
    {
      var m := res[i];
      FilterAppend(res[..i], m, keep);
      assert res[..i + 1] == res[..i] + [m];
      if maxScore > 0 && (m.score == maxScore || (maxID > 0 && m.member >= maxID)) {
        continue;
      }
      out := out + [m];
      if |out| >= limit {
        FilterPrefix(res, i + 1, keep);
        return;
      }
    }
    assert res[..|res|] == res;
  }

  lemma {:induction false} FilterPrefix<T>(s: seq<T>, i: nat, p: T -> bool)
    requires i <= |s|
    ensures Filter(s[..i], p) <= Filter(s, p)
    decreases |s| - i
  {
    if i < |s| {
      FilterAppend(s[..i], s[i], p);
      assert s[..i + 1] == s[..i] + [s[i]];
      FilterPrefix(s, i + 1, p);
    } else {
      assert s[..i] == s;
    }
  }
}
