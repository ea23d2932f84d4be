/** Login, refresh and logout over the two token keys in Redis: the key of an account names its refresh
    token and the key of that token names the account. The id is stored as decimal text; reading it back
    gives the same id (Decimals.ParseUintFormats), so the model stores the id. */
module Sessions {
  import opened Sequences

  /** The keys `account:<id>`, `account:<id>:refresh` and `refresh:<token>`. */
  datatype Cache = Cache(access: map<nat, string>, refreshOf: map<nat, string>, idOf: map<string, nat>)

  datatype Reply = Tokens(access: string, refresh: string) | Unauthorized | Failed | Done

  // ---- The calls as functions ---------------------------------------------------------------

  function Stored(c: Cache, id: nat, access: string, token: string): Cache {
    Cache(c.access[id := access], c.refreshOf[id := token], c.idOf[token := id])
  }

  function Dropped(c: Cache, id: nat, token: string): Cache {
    c.(refreshOf := c.refreshOf - {id}, idOf := c.idOf - {token})
  }

  /** `signed` is the access token, when it could be signed; `token` is the new refresh token. */
  function LoggedIn(c: Cache, id: nat, credentialsOK: bool, signed: Option<string>, token: string): (Cache, Reply) {
    if !credentialsOK then (c, Unauthorized)
    else if signed == None then (c, Failed)
    else
      var stale := id in c.refreshOf && c.refreshOf[id] != "";
      var idOf := if stale then c.idOf - {c.refreshOf[id]} else c.idOf;
      (Stored(c.(idOf := idOf), id, signed.value, token), Tokens(signed.value, token))
  }

  /** The old keys go before the new access token is signed. */
  function Refreshed(c: Cache, presented: string, found: bool, signed: Option<string>, token: string): (Cache, Reply) {
    if presented !in c.idOf then (c, Unauthorized)
    else if !found then (c, Failed)
    else
      var id := c.idOf[presented];
      var c1 := Dropped(c, id, presented);
      if signed == None then (c1, Failed)
      else (Stored(c1, id, signed.value, token), Tokens(signed.value, token))
  }

  function LoggedOut(c: Cache, token: string): (Cache, Reply) {
    if token !in c.idOf then (c, Unauthorized)
    else
      var id := c.idOf[token];
      (Dropped(c, id, token).(access := c.access - {id}), Done)
  }

  // ---- The service ----------------------------------------------------------------------------

  class UserService {
    var access: map<nat, string>
    var refreshOf: map<nat, string>
    var idOf: map<string, nat>

    constructor ()
      ensures Keys() == Cache(map[], map[], map[])
    {
      access, refreshOf, idOf := map[], map[], map[];
    }

    ghost function Keys(): Cache
      reads this
    {
      Cache(access, refreshOf, idOf)
    }

    method Login(id: nat, credentialsOK: bool, signed: Option<string>, token: string) returns (r: Reply)
      modifies this
      ensures (Keys(), r) == LoggedIn(old(Keys()), id, credentialsOK, signed, token)
      ensures credentialsOK && signed.Some? ==> r == Tokens(signed.value, token)
    {
      if !credentialsOK {
        return Unauthorized;
      }
      if signed == None {
        return Failed;
      }
      if id in refreshOf && refreshOf[id] != "" {
        idOf := idOf - {refreshOf[id]};
      }
      access := access[id := signed.value];
      refreshOf := refreshOf[id := token];
      idOf := idOf[token := id];
      return Tokens(signed.value, token);
    }

    method Refresh(refreshToken: string, found: bool, signed: Option<string>, token: string) returns (r: Reply)
      modifies this
      ensures (Keys(), r) == Refreshed(old(Keys()), refreshToken, found, signed, token)
      ensures refreshToken in old(idOf) && found && signed.Some? ==> r == Tokens(signed.value, token)
    {
      if refreshToken !in idOf {
        return Unauthorized;
      }
      var id := idOf[refreshToken];
      if !found {
        return Failed;
      }
      idOf := idOf - {refreshToken};
      refreshOf := refreshOf - {id};
      if signed == None {
        return Failed;
      }
      access := access[id := signed.value];
      refreshOf := refreshOf[id := token];
      idOf := idOf[token := id];
      return Tokens(signed.value, token);
    }

    method Logout(refreshToken: string) returns (r: Reply)
      modifies this
      ensures (Keys(), r) == LoggedOut(old(Keys()), refreshToken)
      ensures refreshToken in old(idOf) ==> r == Done
    {
      if refreshToken !in idOf {
        return Unauthorized;
      }
      var id := idOf[refreshToken];
      idOf := idOf - {refreshToken};
      refreshOf := refreshOf - {id};
      access := access - {id};
      return Done;
    }
  }

  // ---- What the clients saw -------------------------------------------------------------------

  /** A pair of tokens given to an account, a refresh that dropped its session and then could not sign, a logout. */
  datatype Event = Issued(account: nat, access: string, token: string) | Broken(account: nat) | Left(account: nat)

  /** The refresh token an account was last given, unless its session ended since. */
  function Current(log: seq<Event>, a: nat): Option<string> {
    if log == [] then None
    else
      var e := log[|log| - 1];
      if e.account != a then Current(log[..|log| - 1], a) else if e.Issued? then Some(e.token) else None
  }

  /** The access token an account was last given, unless it logged out since; a broken refresh leaves it. */
  function CurrentAccess(log: seq<Event>, a: nat): Option<string> {
    if log == [] then None
    else
      var e := log[|log| - 1];
      if e.account != a || e.Broken? then CurrentAccess(log[..|log| - 1], a)
      else if e.Issued? then Some(e.access) else None
  }

  predicate WasIssued(log: seq<Event>, t: string) {
    exists i :: 0 <= i < |log| && log[i].Issued? && log[i].token == t
  }

  datatype Step =
    | Login(id: nat, credentialsOK: bool, signed: Option<string>, token: string)
    | Refresh(refreshToken: string, found: bool, signed: Option<string>, token: string)
    | Logout(refreshToken: string)

  datatype World = World(cache: Cache, log: seq<Event>)

  function Called(c: Cache, step: Step): (Cache, Reply) {
    match step
    case Login(id, credentialsOK, signed, token) => LoggedIn(c, id, credentialsOK, signed, token)
    case Refresh(t, found, signed, token) => Refreshed(c, t, found, signed, token)
    case Logout(t) => LoggedOut(c, t)
  }

  /** The account a token speaks for. */
  function Account(c: Cache, t: string): Option<nat> {
    if t in c.idOf then Some(c.idOf[t]) else None
  }

  /** What a call owes its client, whatever it answers. */
  function Events(c: Cache, step: Step): seq<Event> {
    match step
    case Login(id, credentialsOK, signed, token) =>
      if credentialsOK && signed.Some? then [Issued(id, signed.value, token)] else []
    case Refresh(t, found, signed, token) =>
      if Account(c, t) == None || !found then []
      else if signed.Some? then [Issued(Account(c, t).value, signed.value, token)]
      else [Broken(Account(c, t).value)]
    case Logout(t) => if Account(c, t) == None then [] else [Left(Account(c, t).value)]
  }

  function Next(w: World, step: Step): World {
    World(Called(w.cache, step).0, w.log + Events(w.cache, step))
  }

  /** New refresh tokens are non-empty and were never given out before. */
  predicate Enabled(w: World, step: Step) {
    match step
    case Login(_, _, _, token) => token != "" && !WasIssued(w.log, token)
    case Refresh(_, _, _, token) => token != "" && !WasIssued(w.log, token)
    case Logout(_) => true
  }

  // ---- The invariant --------------------------------------------------------------------------

  /** The two kinds of key name each other. */
  ghost predicate Inverse(c: Cache) {
    && (forall t :: t in c.idOf ==>
          c.idOf[t] in c.refreshOf && c.refreshOf[c.idOf[t]] == t)
    && (forall a :: a in c.refreshOf ==>
          c.refreshOf[a] != "" && c.refreshOf[a] in c.idOf && c.idOf[c.refreshOf[a]] == a)
  }

  /** An account's keys hold what its last events gave it. */
  ghost predicate Follows(c: Cache, log: seq<Event>) {
    && (forall a: nat :: Value(c.refreshOf, a) == Current(log, a))
    && (forall a: nat :: Value(c.access, a) == CurrentAccess(log, a))
    && (forall t :: t in c.idOf ==> WasIssued(log, t))
  }

  function Value(m: map<nat, string>, a: nat): Option<string> {
    if a in m then Some(m[a]) else None
  }

  ghost predicate WorldOk(w: World) {
    Inverse(w.cache) && Follows(w.cache, w.log)
  }

  lemma StoredKeepsInverse(c: Cache, id: nat, access: string, token: string)
    requires Inverse(c) && id !in c.refreshOf && token !in c.idOf && token != ""
    ensures Inverse(Stored(c, id, access, token))
  {}

  lemma DroppedKeepsInverse(c: Cache, id: nat, token: string)
    requires Inverse(c) && id in c.refreshOf && c.refreshOf[id] == token
    ensures Inverse(Dropped(c, id, token)) && id !in Dropped(c, id, token).refreshOf
  {}

  lemma LoginKeepsInverse(c: Cache, id: nat, signed: Option<string>, token: string)
    requires Inverse(c) && token !in c.idOf && token != ""
    ensures Inverse(LoggedIn(c, id, true, signed, token).0)
  {}

  /** Every call keeps the keys inverse to each other. */
  lemma CallKeepsInverse(w: World, step: Step)
    requires WorldOk(w) && Enabled(w, step)
    ensures Inverse(Called(w.cache, step).0)
  {
    var c := w.cache;
    match step
    case Login(id, credentialsOK, signed, token) =>
      if credentialsOK { LoginKeepsInverse(c, id, signed, token); }
    case Refresh(t, found, signed, token) =>
      if t in c.idOf && found {
        DroppedKeepsInverse(c, c.idOf[t], t);
        if signed.Some? { StoredKeepsInverse(Dropped(c, c.idOf[t], t), c.idOf[t], signed.value, token); }
      }
    case Logout(t) =>
      if t in c.idOf { DroppedKeepsInverse(c, c.idOf[t], t); }
  }

  lemma CurrentAfter(log: seq<Event>, e: Event, a: nat)
    ensures e.account != a ==>
      Current(log + [e], a) == Current(log, a) && CurrentAccess(log + [e], a) == CurrentAccess(log, a)
    ensures e.account == a ==> match e
      case Issued(_, access, token) =>
        Current(log + [e], a) == Some(token) && CurrentAccess(log + [e], a) == Some(access)
      case Broken(_) => Current(log + [e], a) == None && CurrentAccess(log + [e], a) == CurrentAccess(log, a)
      case Left(_) => Current(log + [e], a) == None && CurrentAccess(log + [e], a) == None
  {}

  lemma IssuedAfter(log: seq<Event>, e: Event, t: string)
    ensures WasIssued(log + [e], t) <==> WasIssued(log, t) || (e.Issued? && e.token == t)
  {
    assert forall i :: 0 <= i < |log| ==> (log + [e])[i] == log[i];
    assert (log + [e])[|log|] == e;
  }

  /** Follows, leaving out one account whose keys are about to change. */
  ghost predicate FollowsBut(c: Cache, log: seq<Event>, id: nat) {
    && (forall a: nat :: a != id ==> Value(c.refreshOf, a) == Current(log, a))
    && (forall a: nat :: a != id ==> Value(c.access, a) == CurrentAccess(log, a))
    && (forall t :: t in c.idOf ==> WasIssued(log, t))
  }

  lemma StoredFollows(c: Cache, log: seq<Event>, id: nat, access: string, token: string)
    requires FollowsBut(c, log, id)
    ensures Follows(Stored(c, id, access, token), log + [Issued(id, access, token)])
  {
    forall a: nat { CurrentAfter(log, Issued(id, access, token), a); }
    forall t: string { IssuedAfter(log, Issued(id, access, token), t); }
  }

  lemma DroppedFollows(c: Cache, log: seq<Event>, id: nat, token: string)
    requires Follows(c, log)
    ensures Follows(Dropped(c, id, token), log + [Broken(id)])
    ensures Follows(Dropped(c, id, token).(access := c.access - {id}), log + [Left(id)])
  {
    forall a: nat { CurrentAfter(log, Broken(id), a); }
    forall a: nat { CurrentAfter(log, Left(id), a); }
    forall t: string { IssuedAfter(log, Broken(id), t); }
    forall t: string { IssuedAfter(log, Left(id), t); }
  }

  /** Every call keeps each account's keys at its last events. */
  lemma CallFollows(w: World, step: Step)
    requires WorldOk(w) && Enabled(w, step)
    ensures Follows(Next(w, step).cache, Next(w, step).log)
  {
    var c, log := w.cache, w.log;
    assert log + [] == log;
    match step
    case Login(id, credentialsOK, signed, token) =>
      if credentialsOK && signed.Some? {
        var idOf := if id in c.refreshOf then c.idOf - {c.refreshOf[id]} else c.idOf;
        StoredFollows(c.(idOf := idOf), log, id, signed.value, token);
      }
    case Refresh(t, found, signed, token) =>
      if t in c.idOf && found {
        if signed.Some? { StoredFollows(Dropped(c, c.idOf[t], t), log, c.idOf[t], signed.value, token); }
        else { DroppedFollows(c, log, c.idOf[t], t); }
      }
    case Logout(t) =>
      if t in c.idOf { DroppedFollows(c, log, c.idOf[t], t); }
  }

  function Run(w: World, steps: seq<Step>): World
    decreases |steps|
  {
    if steps == [] then w else Run(Next(w, steps[0]), steps[1..])
  }

  predicate RunEnabled(w: World, steps: seq<Step>)
    decreases |steps|
  {
    steps != [] ==> Enabled(w, steps[0]) && RunEnabled(Next(w, steps[0]), steps[1..])
  }

  lemma {:induction false} RunKeeps(w: World, steps: seq<Step>)
    requires WorldOk(w) && RunEnabled(w, steps)
    ensures WorldOk(Run(w, steps))
    decreases |steps|
  {
    if steps != [] {
      CallKeepsInverse(w, steps[0]);
      CallFollows(w, steps[0]);
      RunKeeps(Next(w, steps[0]), steps[1..]);
    }
  }

  const START := World(Cache(map[], map[], map[]), [])

  /** After any run a token speaks for an account exactly when it is the last one the account was given and its
      session did not end since: so an account has at most one, and a token at most one account. A refresh that
      fails to sign ends the session but leaves the old access token; a logout removes both. */
  lemma LiveTokenIsTheLastIssued(steps: seq<Step>, t: string, a: nat)
    requires RunEnabled(START, steps)
    ensures var w := Run(START, steps);
      && (Account(w.cache, t) == Some(a) <==> Current(w.log, a) == Some(t))
      && (Account(w.cache, t) == Some(a) <==> Value(w.cache.refreshOf, a) == Some(t))
      && Value(w.cache.access, a) == CurrentAccess(w.log, a)
  {
    RunKeeps(START, steps);
  }

  /** A token that was given out and is no longer accepted is never accepted again. */
  lemma {:induction false} RetiredForEver(w: World, steps: seq<Step>, t: string)
    requires RunEnabled(w, steps) && WasIssued(w.log, t) && Account(w.cache, t) == None
    ensures Account(Run(w, steps).cache, t) == None
    decreases |steps|
  {
    if steps != [] {
      var es := Events(w.cache, steps[0]);
      if es == [] { assert w.log + es == w.log; } else { IssuedAfter(w.log, es[0], t); }
      RetiredForEver(Next(w, steps[0]), steps[1..], t);
    }
  }

  /** What retires a token: the rotation and the logout it is presented to, and its account's next login. */
  lemma CallsRetire(w: World, step: Step, t: string)
    requires WorldOk(w) && Enabled(w, step) && Account(w.cache, t).Some?
    ensures Account(Next(w, step).cache, t) == None <==>
      match step
      case Login(id, credentialsOK, signed, _) => credentialsOK && signed.Some? && Account(w.cache, t) == Some(id)
      case Refresh(u, found, _, _) => u == t && found
      case Logout(u) => u == t
  {}

  // ---- What is answered -------------------------------------------------------------------------

  /** The token is the last one this account was given, and its session did not end since. */
  predicate Speaks(log: seq<Event>, t: string, a: nat) {
    Current(log, a) == Some(t)
  }

  /** The account that the call is about. */
  ghost predicate Concerns(log: seq<Event>, step: Step, a: nat) {
    match step
    case Login(id, _, _, _) => a == id
    case Refresh(t, _, _, _) => Speaks(log, t, a)
    case Logout(t) => Speaks(log, t, a)
  }

  ghost predicate Live(log: seq<Event>, t: string) {
    exists a: nat :: Speaks(log, t, a)
  }

  /** The call is a login with good credentials or a refresh of a live token by a user who exists, and signing works. */
  ghost predicate Issues(log: seq<Event>, step: Step) {
    match step
    case Login(_, credentialsOK, signed, _) => credentialsOK && signed.Some?
    case Refresh(t, found, signed, _) => Live(log, t) && found && signed.Some?
    case Logout(_) => false
  }

  lemma LiveIff(w: World, t: string)
    requires WorldOk(w)
    ensures t in w.cache.idOf <==> Live(w.log, t)
    ensures forall a: nat :: Speaks(w.log, t, a) <==> Account(w.cache, t) == Some(a)
  {
    if t in w.cache.idOf { assert Speaks(w.log, t, w.cache.idOf[t]); }
  }

  lemma IssuedPair(w: World, step: Step, a: nat)
    requires WorldOk(w) && Enabled(w, step) && Issues(w.log, step) && Concerns(w.log, step, a)
    ensures var w' := Next(w, step);
      Account(w'.cache, step.token) == Some(a) && Value(w'.cache.access, a) == Some(step.signed.value)
  {
    if step.Refresh? { LiveIff(w, step.refreshToken); }
  }

  /** After any run, a call hands out a pair exactly when it is such a login or refresh; the pair is the one that was
      signed and drawn for it, and from then on both tokens are those of the account concerned. */
  lemma CallIssuesIff(steps: seq<Step>, step: Step)
    requires RunEnabled(START, steps) && Enabled(Run(START, steps), step)
    ensures var w := Run(START, steps); var w', r := Next(w, step), Called(w.cache, step).1;
      && (r.Tokens? <==> Issues(w.log, step))
      && (r.Tokens? ==> r == Tokens(step.signed.value, step.token))
      && (r.Tokens? ==> forall a: nat :: Concerns(w.log, step, a) ==>
            Account(w'.cache, step.token) == Some(a) && Value(w'.cache.access, a) == Some(step.signed.value))
  {
    var w := Run(START, steps);
    RunKeeps(START, steps);
    if step.Refresh? { LiveIff(w, step.refreshToken); }
    forall a: nat | Issues(w.log, step) && Concerns(w.log, step, a) { IssuedPair(w, step, a); }
  }

  /** Wrong credentials and dead tokens are refused, a live token refreshes or logs out, and a failure is one of the
      database or of signing. */
  lemma AnswersAreDetermined(steps: seq<Step>, step: Step)
    requires RunEnabled(START, steps)
    ensures var w := Run(START, steps);
      Called(w.cache, step).1 == match step
        case Login(_, credentialsOK, signed, token) =>
          if !credentialsOK then Unauthorized else if signed.Some? then Tokens(signed.value, token) else Failed
        case Refresh(t, found, signed, token) =>
          if !Live(w.log, t) then Unauthorized
          else if found && signed.Some? then Tokens(signed.value, token) else Failed
        case Logout(t) => if Live(w.log, t) then Done else Unauthorized
  {
    RunKeeps(START, steps);
    match step
    case Login(_, _, _, _) =>
    case Refresh(t, _, _, _) => LiveIff(Run(START, steps), t);
    case Logout(t) => LiveIff(Run(START, steps), t);
  }

  /** After a logout neither the token nor the account's access key is left. */
  lemma LogoutLeavesNothing(steps: seq<Step>, t: string, a: nat)
    requires RunEnabled(START, steps) && Speaks(Run(START, steps).log, t, a)
    ensures var w' := Next(Run(START, steps), Logout(t));
      Account(w'.cache, t) == None && Value(w'.cache.refreshOf, a) == None && Value(w'.cache.access, a) == None
  {
    RunKeeps(START, steps);
    LiveIff(Run(START, steps), t);
  }
}
