/** The hub behind live notifications: one buffered channel per user, taken over by the newest
    connection. Each operation runs under the hub's lock, so a run is a sequence of operations. */
module SseHub {
  import opened Sequences

  datatype Notification = Notification(id: nat, text: string)

  const BUFFER: nat := 20

  /** A push made while the channel was registered, with the number of notifications then waiting. */
  datatype Offer = Offer(note: Notification, waiting: nat)

  /** A Go channel, with the history of what was offered to it and what was received from it. */
  datatype Channel =
    Channel(user: nat, buf: seq<Notification>, closed: bool, offers: seq<Offer>, received: seq<Notification>)

  /** `crashed` records a double close or a send on a closed channel, which would end the process. */
  datatype Hub = Hub(clients: map<nat, nat>, channels: seq<Channel>, crashed: bool)

  // ---- Operations -------------------------------------------------------------------------

  function Close(h: Hub, c: nat): Hub
    requires c < |h.channels|
  {
    if h.channels[c].closed then h.(crashed := true)
    else h.(channels := h.channels[c := h.channels[c].(closed := true)])
  }

  /** The new channel takes the user's place; the old one is closed. Its index is the number of channels before. */
  function Subscribed(h: Hub, user: nat): Hub
    requires user in h.clients ==> h.clients[user] < |h.channels|
  {
    var g := if user in h.clients then Close(h, h.clients[user]) else h;
    g.(clients := g.clients[user := |g.channels|], channels := g.channels + [Channel(user, [], false, [], [])])
  }

  /** Only the connection that is still registered closes its channel. */
  function Unsubscribed(h: Hub, user: nat, c: nat): Hub
    requires c < |h.channels|
  {
    if user in h.clients && h.clients[user] == c then Close(h.(clients := h.clients - {user}), c) else h
  }

  /** A full buffer drops the notification. */
  function Pushed(h: Hub, user: nat, n: Notification): Hub
    requires user in h.clients ==> h.clients[user] < |h.channels|
  {
    if user !in h.clients then h
    else
      var c := h.clients[user];
      var ch := h.channels[c];
      if ch.closed then h.(crashed := true)
      else
        h.(channels := h.channels[c := ch.(offers := ch.offers + [Offer(n, |ch.buf|)],
                                           buf := if |ch.buf| < BUFFER then ch.buf + [n] else ch.buf)])
  }

  /** A buffered value is received even after a close; otherwise nothing changes. */
  function Received(h: Hub, c: nat): Hub
    requires c < |h.channels|
  {
    var ch := h.channels[c];
    if ch.buf == [] then h
    else h.(channels := h.channels[c := ch.(buf := ch.buf[1..], received := ch.received + [ch.buf[0]])])
  }

  // ---- The hub ------------------------------------------------------------------------------

  datatype Receipt = Value(note: Notification) | Closed | WouldBlock

  class SSEHub {
    var clients: map<nat, nat>
    var channels: seq<Channel>
    var crashed: bool

    ghost function State(): Hub
      reads this
    {
      Hub(clients, channels, crashed)
    }

    constructor ()
      ensures State() == Hub(map[], [], false)
    {
      clients, channels, crashed := map[], [], false;
    }

    method CloseChannel(c: nat)
      requires c < |channels|
      modifies this`channels, this`crashed
      ensures State() == Close(old(State()), c)
    {
      if channels[c].closed {
        crashed := true;
      } else {
        channels := channels[c := channels[c].(closed := true)];
      }
    }

    method Subscribe(user: nat) returns (c: nat)
      requires Registered(State())
      modifies this
      ensures State() == Subscribed(old(State()), user) && c == |old(channels)|
      ensures user in clients && clients[user] == c && c < |channels| && channels[c] == Channel(user, [], false, [], [])
    {
      if user in clients {
        CloseChannel(clients[user]);
      }
      c := |channels|;
      channels := channels + [Channel(user, [], false, [], [])];
      clients := clients[user := c];
    }

    method UnSubscribe(user: nat, c: nat)
      requires c < |channels|
      modifies this
      ensures State() == Unsubscribed(old(State()), user, c)
    {
      if user in clients && clients[user] == c {
        clients := clients - {user};
        CloseChannel(c);
      }
    }

    method Push(user: nat, n: Notification)
      requires Registered(State())
      modifies this
      ensures State() == Pushed(old(State()), user, n)
    {
      if user !in clients {
        return;
      }
      var c := clients[user];
      var ch := channels[c];
      if ch.closed {
        crashed := true;
        return;
      }
      var offers := ch.offers + [Offer(n, |ch.buf|)];
      if |ch.buf| < BUFFER {
        channels := channels[c := ch.(offers := offers, buf := ch.buf + [n])];
      } else {
        channels := channels[c := ch.(offers := offers)];
      }
    }

    /** The receive branch of the connection's loop. */
    method Receive(c: nat) returns (r: Receipt)
      requires c < |channels|
      modifies this`channels
      ensures State() == Received(old(State()), c)
      ensures |channels| == |old(channels)|
      ensures var ch := old(channels)[c];
        ch.buf != [] ==> channels[c] == ch.(buf := ch.buf[1..], received := ch.received + [ch.buf[0]])
      ensures r == var ch := old(channels)[c];
        if ch.buf != [] then Value(ch.buf[0]) else if ch.closed then Closed else WouldBlock
    {
      var ch := channels[c];
      if |ch.buf| > 0 {
        channels := channels[c := ch.(buf := ch.buf[1..], received := ch.received + [ch.buf[0]])];
        return Value(ch.buf[0]);
      }
      return if ch.closed then Closed else WouldBlock;
    }
  }

  // ---- Safety ---------------------------------------------------------------------------------

  ghost predicate Registered(h: Hub) {
    forall u :: u in h.clients ==> h.clients[u] < |h.channels|
  }

  /** The notifications that found room. */
  function Accepted(offers: seq<Offer>): seq<Notification> {
    if offers == [] then []
    else
      var last := offers[|offers| - 1];
      Accepted(offers[..|offers| - 1]) + if last.waiting < 20 then [last.note] else []
  }

  /** Nothing is lost, reordered or invented: what was received and what waits are the accepted offers. */
  ghost predicate ChannelOk(ch: Channel) {
    && ch.received + ch.buf == Accepted(ch.offers)
    && |ch.buf| <= 20
    && forall i :: 0 <= i < |ch.offers| ==> ch.offers[i].waiting <= 20
  }

  /** The registered channels are exactly the open ones, each under its own user. */
  ghost predicate HubOk(h: Hub) {
    && !h.crashed && Registered(h)
    && (forall u :: u in h.clients ==> h.channels[h.clients[u]].user == u)
    && (forall c :: 0 <= c < |h.channels| ==>
          && ChannelOk(h.channels[c])
          && (!h.channels[c].closed <==> h.channels[c].user in h.clients && h.clients[h.channels[c].user] == c))
  }

  lemma SubscribedChannel(h: Hub, user: nat, c: nat)
    requires HubOk(h) && c <= |h.channels|
    ensures var g := Subscribed(h, user);
      && |g.channels| == |h.channels| + 1 && ChannelOk(g.channels[c])
      && (!g.channels[c].closed <==> g.channels[c].user in g.clients && g.clients[g.channels[c].user] == c)
  {
    if c < |h.channels| { assert ChannelOk(h.channels[c]); }
  }

  lemma SubscribeKeeps(h: Hub, user: nat)
    requires HubOk(h)
    ensures HubOk(Subscribed(h, user))
  {
    var g := Subscribed(h, user);
    SubscribedChannel(h, user, |h.channels|);
    forall c | 0 <= c < |g.channels|
      ensures ChannelOk(g.channels[c])
      ensures !g.channels[c].closed <==> g.channels[c].user in g.clients && g.clients[g.channels[c].user] == c
    {
      SubscribedChannel(h, user, c);
    }
  }

  lemma UnsubscribeKeeps(h: Hub, user: nat, c: nat)
    requires HubOk(h) && c < |h.channels|
    ensures HubOk(Unsubscribed(h, user, c))
  {}

  lemma PushKeeps(h: Hub, user: nat, n: Notification)
    requires HubOk(h)
    ensures HubOk(Pushed(h, user, n))
  {}

  lemma ReceiveKeeps(h: Hub, c: nat)
    requires HubOk(h) && c < |h.channels|
    ensures HubOk(Received(h, c))
  {}

  datatype Step =
    | Connect(user: nat)
    | Disconnect(user: nat, c: nat)
    | Send(user: nat, n: Notification)
    | Fetch(c: nat)

  /** Connections only name channels they were given; they may disconnect late, twice, or as another user. */
  predicate Enabled(h: Hub, step: Step) {
    match step
    case Disconnect(_, c) => c < |h.channels|
    case Fetch(c) => c < |h.channels|
    case _ => true
  }

  function Next(h: Hub, step: Step): Hub
    requires Registered(h) && Enabled(h, step)
  {
    match step
    case Connect(user) => Subscribed(h, user)
    case Disconnect(user, c) => Unsubscribed(h, user, c)
    case Send(user, n) => Pushed(h, user, n)
    case Fetch(c) => Received(h, c)
  }

  ghost predicate IsRun(states: seq<Hub>, steps: seq<Step>) {
    && |states| == |steps| + 1 && states[0] == Hub(map[], [], false)
    && forall i :: 0 <= i < |steps| ==>
         Registered(states[i]) && Enabled(states[i], steps[i]) && states[i + 1] == Next(states[i], steps[i])
  }

  // What the steps alone say: connections are numbered as they come, the last one of a user counts until it
  // disconnects itself.

  function Connects(steps: seq<Step>, i: nat): nat
    requires i <= |steps|
  {
    if i == 0 then 0 else Connects(steps, i - 1) + if steps[i - 1].Connect? then 1 else 0
  }

  function Holder(steps: seq<Step>, i: nat, user: nat): Option<nat>
    requires i <= |steps|
  {
    if i == 0 then None
    else
      var before := Holder(steps, i - 1, user);
      match steps[i - 1]
      case Connect(u) => if u == user then Some(Connects(steps, i - 1)) else before
      case Disconnect(u, c) => if u == user && before == Some(c) then None else before
      case _ => before
  }

  /** The pushes addressed to channel `c`: those sent to its user while it was the registered channel. */
  function AddressedTo(steps: seq<Step>, i: nat, c: nat): seq<Notification>
    requires i <= |steps|
  {
    if i == 0 then []
    else
      var step := steps[i - 1];
      AddressedTo(steps, i - 1, c) +
      if step.Send? && Holder(steps, i - 1, step.user) == Some(c) then [step.n] else []
  }

  function Notes(offers: seq<Offer>): seq<Notification> {
    seq(|offers|, i requires 0 <= i < |offers| => offers[i].note)
  }

  /** What a step addresses to a channel. */
  function Addressed(h: Hub, step: Step, c: nat): seq<Notification> {
    if step.Send? && step.user in h.clients && h.clients[step.user] == c then [step.n] else []
  }

  /** What waits for the owner of channel `c`: a queue of at most twenty. */
  function Waiting(steps: seq<Step>, i: nat, c: nat): seq<Notification>
    requires i <= |steps|
  {
    if i == 0 then []
    else
      var before := Waiting(steps, i - 1, c);
      match steps[i - 1]
      case Send(u, n) => if Holder(steps, i - 1, u) == Some(c) && |before| < 20 then before + [n] else before
      case Fetch(d) => if d == c && before != [] then before[1..] else before
      case _ => before
  }

  /** What its owner has received: one waiting notification for each time it asked. */
  function Got(steps: seq<Step>, i: nat, c: nat): seq<Notification>
    requires i <= |steps|
  {
    if i == 0 then []
    else
      var waiting, before := Waiting(steps, i - 1, c), Got(steps, i - 1, c);
      if steps[i - 1] == Fetch(c) && waiting != [] then before + [waiting[0]] else before
  }

  lemma StepKeeps(h: Hub, step: Step)
    requires HubOk(h) && Enabled(h, step)
    ensures HubOk(Next(h, step))
  {
    match step
    case Connect(user) => SubscribeKeeps(h, user);
    case Disconnect(user, c) => UnsubscribeKeeps(h, user, c);
    case Send(user, n) => PushKeeps(h, user, n);
    case Fetch(c) => ReceiveKeeps(h, c);
  }

  lemma StepOffers(h: Hub, step: Step)
    requires Registered(h) && Enabled(h, step) && !Next(h, step).crashed
    ensures |h.channels| <= |Next(h, step).channels|
    ensures forall c :: 0 <= c < |h.channels| ==>
      Notes(Next(h, step).channels[c].offers) == Notes(h.channels[c].offers) + Addressed(h, step, c)
    ensures forall c :: |h.channels| <= c < |Next(h, step).channels| ==> Next(h, step).channels[c].offers == []
  {}

  function Registration(h: Hub, user: nat): Option<nat> {
    if user in h.clients then Some(h.clients[user]) else None
  }

  /** After any run the registered channel of a user is the one of the last connection, until that disconnects. */
  lemma {:induction false} RegisteredIsLast(states: seq<Hub>, steps: seq<Step>, i: nat)
    requires IsRun(states, steps) && i < |states|
    ensures |states[i].channels| == Connects(steps, i)
    ensures forall u: nat :: Registration(states[i], u) == Holder(steps, i, u)
  {
    if i > 0 {
      var h := states[i - 1];
      RegisteredIsLast(states, steps, i - 1);
      assert Registered(h) && Enabled(h, steps[i - 1]) && states[i - 1 + 1] == Next(h, steps[i - 1]);
      assert forall u: nat :: Registration(h, u) == Holder(steps, i - 1, u);
    }
  }

  /** In every interleaving: no channel is closed twice, nothing is sent on a closed channel, a channel is open
      exactly while it is registered; and a subscriber has received, or will find waiting, in order, the pushes
      made while it was registered except those that found twenty already waiting. */
  lemma {:induction false} HubIsSafe(states: seq<Hub>, steps: seq<Step>, i: nat)
    requires IsRun(states, steps) && i < |states|
    ensures HubOk(states[i])
    ensures forall c :: 0 <= c < |states[i].channels| ==>
      Notes(states[i].channels[c].offers) == AddressedTo(steps, i, c)
    ensures forall c :: |states[i].channels| <= c ==> AddressedTo(steps, i, c) == []
  {
    if i > 0 {
      var h := states[i - 1];
      HubIsSafe(states, steps, i - 1);
      assert Registered(h) && Enabled(h, steps[i - 1]) && states[i - 1 + 1] == Next(h, steps[i - 1]);
      StepKeeps(h, steps[i - 1]);
      StepOffers(h, steps[i - 1]);
      RegisteredIsLast(states, steps, i - 1);
      forall c: nat
        ensures AddressedTo(steps, i, c) == AddressedTo(steps, i - 1, c) + Addressed(h, steps[i - 1], c)
      {
        StepAddresses(h, steps, i - 1, c);
      }
    }
  }

  lemma StepAddresses(h: Hub, steps: seq<Step>, i: nat, c: nat)
    requires i < |steps| && forall u: nat :: Registration(h, u) == Holder(steps, i, u)
    ensures AddressedTo(steps, i + 1, c) == AddressedTo(steps, i, c) + Addressed(h, steps[i], c)
  {
    if steps[i].Send? { assert Registration(h, steps[i].user) == Holder(steps, i, steps[i].user); }
  }

  ghost predicate IsQueue(h: Hub, steps: seq<Step>, i: nat, c: nat)
    requires i <= |steps|
  {
    if c < |h.channels| then h.channels[c].buf == Waiting(steps, i, c) && h.channels[c].received == Got(steps, i, c)
    else Waiting(steps, i, c) == [] && Got(steps, i, c) == []
  }

  lemma StepMoves(h: Hub, step: Step, c: nat)
    requires HubOk(h) && Enabled(h, step) && c < |h.channels|
    ensures |h.channels| <= |Next(h, step).channels|
    ensures var ch, after := h.channels[c], Next(h, step).channels[c];
      match step
      case Send(u, n) =>
        && after.buf == (if Registration(h, u) == Some(c) && |ch.buf| < 20 then ch.buf + [n] else ch.buf)
        && after.received == ch.received
      case Fetch(d) =>
        if d == c && ch.buf != [] then after.buf == ch.buf[1..] && after.received == ch.received + [ch.buf[0]]
        else after.buf == ch.buf && after.received == ch.received
      case _ => after.buf == ch.buf && after.received == ch.received
  {}

  lemma StepQueues(h: Hub, steps: seq<Step>, i: nat, c: nat)
    requires i < |steps| && HubOk(h) && Enabled(h, steps[i]) && |h.channels| == Connects(steps, i)
    requires forall u: nat :: Registration(h, u) == Holder(steps, i, u)
    requires IsQueue(h, steps, i, c)
    ensures IsQueue(Next(h, steps[i]), steps, i + 1, c)
  {
    if steps[i].Send? { assert Registration(h, steps[i].user) == Holder(steps, i, steps[i].user); }
    if c < |h.channels| { StepMoves(h, steps[i], c); }
  }

  /** In every interleaving a channel is just that queue, and its owner has received just that. */
  lemma {:induction false} ChannelIsQueue(states: seq<Hub>, steps: seq<Step>, i: nat, c: nat)
    requires IsRun(states, steps) && i < |states|
    ensures IsQueue(states[i], steps, i, c)
  {
    if i > 0 {
      var h := states[i - 1];
      ChannelIsQueue(states, steps, i - 1, c);
      HubIsSafe(states, steps, i - 1);
      RegisteredIsLast(states, steps, i - 1);
      assert Registered(h) && Enabled(h, steps[i - 1]) && states[i - 1 + 1] == Next(h, steps[i - 1]);
      StepQueues(h, steps, i - 1, c);
    }
  }

  /** The connection receives until nothing waits. */
  function Drained(h: Hub, c: nat): Hub
    requires c < |h.channels|
    decreases if c < |h.channels| then |h.channels[c].buf| else 0
  {
    if h.channels[c].buf == [] then h else Drained(Received(h, c), c)
  }

  /** Then it has received every push that found room, in order, even after its channel was closed; nothing else
      changes. */
  lemma {:induction false} DrainedIsDelivered(h: Hub, c: nat)
    requires HubOk(h) && c < |h.channels|
    ensures var ch := h.channels[c];
      Drained(h, c) == h.(channels := h.channels[c := ch.(buf := [], received := Accepted(ch.offers))])
    decreases |h.channels[c].buf|
  {
    var ch := h.channels[c];
    if ch.buf == [] {
      assert ch.received + ch.buf == ch.received;
      assert h.channels[c := ch] == h.channels;
    } else {
      ReceiveKeeps(h, c);
      DrainedIsDelivered(Received(h, c), c);
      var last := ch.(buf := [], received := Accepted(ch.offers));
      assert Received(h, c).channels[c := last] == h.channels[c := last];
    }
  }

  /** A dropped notification found a full buffer; every other one is delivered or waiting. */
  lemma {:induction false} DroppedOnlyWhenFull(offers: seq<Offer>, k: nat)
    requires k < |offers| && forall i :: 0 <= i < |offers| ==> offers[i].waiting <= 20
    ensures Accepted(offers[..k]) <= Accepted(offers)
    ensures offers[k].waiting < 20 ==>
      |Accepted(offers[..k])| < |Accepted(offers)| && Accepted(offers)[|Accepted(offers[..k])|] == offers[k].note
  {
    var n := |offers| - 1;
    if k < n {
      DroppedOnlyWhenFull(offers[..n], k);
      assert offers[..n][..k] == offers[..k];
    } else {
      assert offers[..k] == offers[..n];
    }
  }
}
