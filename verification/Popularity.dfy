/** The hot list: changes are counted in one sorted set a minute, a ranking is the union of the
    last sixty closed minutes, kept for two minutes and read by offset. Times are in milliseconds. */
module Popularity {
  import opened Sequences
  import opened SortedSets

  const MINUTE: int := 60_000
  const WINDOW: nat := 60
  const BUCKET_TTL: int := 120 * MINUTE
  const SNAPSHOT_TTL: int := 2 * MINUTE

  function Minute(t: int): int {
    t / MINUTE
  }

  /** A key: the bucket of one minute, or the ranking as of one minute. */
  datatype Name = Bucket(minute: int) | Snapshot(minute: int)

  datatype ZKey = ZKey(entries: seq<ZMember>, expires: Option<int>)

  type Store = map<Name, ZKey>

  // ---- The commands as functions ------------------------------------------------------------

  function Lookup(s: Store, k: Name, now: int): Option<ZKey> {
    if k !in s || (s[k].expires.Some? && s[k].expires.value < now) then None else Some(s[k])
  }

  function Entries(s: Store, k: Name, now: int): seq<ZMember> {
    match Lookup(s, k, now) case None => [] case Some(z) => z.entries
  }

  function ScoreOf(s: seq<ZMember>, v: nat): int {
    if s == [] then 0 else if s[0].member == v then s[0].score else ScoreOf(s[1..], v)
  }

  function Increased(s: seq<ZMember>, v: nat, delta: int): seq<ZMember> {
    Add(s, ZMember(ScoreOf(s, v) + delta, v))
  }

  /** ZINCRBY keeps the time to live of a key that exists; a new key has none. */
  function Incr(s: Store, k: Name, v: nat, delta: int, now: int): Store {
    var expires := match Lookup(s, k, now) case None => None case Some(z) => z.expires;
    s[k := ZKey(Increased(Entries(s, k, now), v, delta), expires)]
  }

  /** EXPIRE does nothing to a key that does not exist. */
  function Expired(s: Store, k: Name, ttl: int, now: int): Store {
    match Lookup(s, k, now) case None => s case Some(z) => s[k := z.(expires := Some(now + ttl))]
  }

  /** Adds the scores of `es` to those of `s`. */
  function Merged(s: seq<ZMember>, es: seq<ZMember>): seq<ZMember> {
    if es == [] then s else Increased(Merged(s, es[..|es| - 1]), es[|es| - 1].member, es[|es| - 1].score)
  }

  function Union(s: Store, keys: seq<Name>, now: int): seq<ZMember> {
    if keys == [] then [] else Merged(Union(s, keys[..|keys| - 1], now), Entries(s, keys[|keys| - 1], now))
  }

  /** ZUNIONSTORE with SUM replaces the destination, and removes it when the union is empty. */
  function UnionStored(s: Store, dest: Name, keys: seq<Name>, now: int): Store {
    var u := Union(s, keys, now);
    if u == [] then s - {dest} else s[dest := ZKey(u, None)]
  }

  // ---- The repository and the service as functions ------------------------------------------

  function Updated(s: Store, v: nat, change: int, incrOK: bool, expireOK: bool, now: int): Store {
    var k := Bucket(Minute(now));
    var s1 := if incrOK then Incr(s, k, v, change, now) else s;
    if expireOK then Expired(s1, k, BUCKET_TTL, now) else s1
  }

  /** The buckets of the `n` minutes before `m`, latest first. */
  function BucketsBefore(m: int, n: nat): seq<Name> {
    if n == 0 then [] else BucketsBefore(m, n - 1) + [Bucket(m - n)]
  }

  datatype Faults = Faults(lookup: bool, union: bool, expire: bool, range: bool, reader: bool)

  datatype Response = Failed | HotPage(ids: seq<nat>, asOf: int, offset: int, hasMore: bool)

  /** Errors of the union and of its time to live are dropped. */
  function Rebuilt(s: Store, m: int, f: Faults, now: int): Store {
    var s1 := if f.union then s else UnionStored(s, Snapshot(m), BucketsBefore(m, WINDOW), now);
    if f.expire then s1 else Expired(s1, Snapshot(m), SNAPSHOT_TTL, now)
  }

  function Members(s: seq<ZMember>): seq<nat> {
    seq(|s|, i requires 0 <= i < |s| => s[i].member)
  }

  function PageOf(entries: seq<ZMember>, m: int, offset: int, limit: nat): Response {
    var members := RevRange(entries, offset, offset + limit);
    HotPage(Members(Take(members, limit)), m * 60, offset + limit, |members| > limit)
  }

  /** The minute whose ranking the request reads. */
  function Chosen(s: Store, asOf: int, now: int): int {
    if asOf > 0 && Lookup(s, Snapshot(asOf / 60), now).Some? then asOf / 60 else Minute(now)
  }

  /** The store once that ranking has been looked for: built unless a live one was asked for. */
  function Prepared(s: Store, asOf: int, f: Faults, now: int): Store {
    if asOf > 0 && Lookup(s, Snapshot(asOf / 60), now).Some? then s else Rebuilt(s, Minute(now), f, now)
  }

  function Listed(s: Store, asOf: int, offset: int, limit: nat, f: Faults, now: int): (Store, Response) {
    if asOf > 0 && f.lookup then (s, Failed)
    else
      var m, s1 := Chosen(s, asOf, now), Prepared(s, asOf, f, now);
      (s1, if f.range || f.reader then Failed else PageOf(Entries(s1, Snapshot(m), now), m, offset, limit))
  }

  // ---- The client, the repository and the service ---------------------------------------------

  class HotList {
    var store: Store

    constructor ()
      ensures store == map[]
    {
      store := map[];
    }

    method ZIncrBy(k: Name, v: nat, delta: int, now: int)
      modifies this
      ensures store == Incr(old(store), k, v, delta, now)
    {
      var expires := None;
      var score := 0;
      var entries := [];
      if k in store && !(store[k].expires.Some? && store[k].expires.value < now) {
        expires, entries := store[k].expires, store[k].entries;
        score := ScoreOf(entries, v);
      }
      store := store[k := ZKey(Add(entries, ZMember(score + delta, v)), expires)];
    }

    method Expire(k: Name, ttl: int, now: int)
      modifies this
      ensures store == Expired(old(store), k, ttl, now)
    {
      if Lookup(store, k, now).Some? {
        store := store[k := store[k].(expires := Some(now + ttl))];
      }
    }

    method ZUnionStore(dest: Name, keys: seq<Name>, now: int)
      modifies this
      ensures store == UnionStored(old(store), dest, keys, now)
    {
      var u: seq<ZMember> := [];
      for i := 0 to |keys|
        invariant u == Union(store, keys[..i], now)
        invariant store == old(store)
      {
        assert keys[..i + 1][..i] == keys[..i];
        u := Merged(u, Entries(store, keys[i], now));
      }
      assert keys[..|keys|] == keys;
      store := if u == [] then store - {dest} else store[dest := ZKey(u, None)];
    }

    /** The time to live is renewed whether or not the increment was accepted. */
    method UpdatePopularity(v: nat, change: int, incrOK: bool, expireOK: bool, now: int)
      modifies this
      ensures store == Updated(old(store), v, change, incrOK, expireOK, now)
    {
      var key := Bucket(Minute(now));
      if incrOK {
        ZIncrBy(key, v, change, now);
      }
      if expireOK {
        Expire(key, BUCKET_TTL, now);
      }
    }

    /** The branch without a live snapshot: builds the one of minute `m`. */
    method Rebuild(m: int, f: Faults, clock: int)
      modifies this
      ensures store == Rebuilt(old(store), m, f, clock)
    {
      var keys := [];
      for i := 1 to WINDOW + 1
        invariant keys == BucketsBefore(m, i - 1)
        invariant store == old(store)
      {
        keys := keys + [Bucket(m - i)];
      }
      if !f.union {
        ZUnionStore(Snapshot(m), keys, clock);
      }
      if !f.expire {
        Expire(Snapshot(m), SNAPSHOT_TTL, clock);
      }
    }

    method ListByPopularity(asOf: int, offset: int, limit: nat, f: Faults, clock: int) returns (r: Response)
      modifies this
      ensures (store, r) == Listed(old(store), asOf, offset, limit, f, clock)
      ensures r == Failed <==> (asOf > 0 && f.lookup) || f.range || f.reader
    {
      var now, flag := Minute(clock), false;
      if asOf > 0 {
        var reqNow := asOf / 60;
        if f.lookup {
          return Failed;
        }
        if Lookup(store, Snapshot(reqNow), clock).Some? {
          now, flag := reqNow, true;
        }
      }
      if !flag {
        Rebuild(now, f, clock);
      }
      if f.range {
        return Failed;
      }
      var members := RevRange(Entries(store, Snapshot(now), clock), offset, offset + limit);
      var hasMore := |members| > limit;
      if hasMore {
        members := members[..limit];
      }
      var ids := IDs(members);
      if f.reader {
        return Failed;
      }
      return HotPage(ids, now * 60, offset + limit, hasMore);
    }
  }

  method IDs(members: seq<ZMember>) returns (ids: seq<nat>)
    ensures ids == Members(members)
  {
    ids := [];
    for i := 0 to |members|
      invariant ids == Members(members[..i])
    {
      assert members[..i + 1] == members[..i] + [members[i]];
      ids := ids + [members[i].member];
    }
    assert members[..|members|] == members;
  }
}
