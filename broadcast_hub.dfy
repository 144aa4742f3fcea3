/** The overlay's WebSocket hub (server.js): the set of connected clients,
    the bounded history of recent messages, `broadcast`, and the
    `connection` and `close` handlers. Serialising a message to JSON and the
    socket itself are not modelled: a client is its open flag and the list of
    messages it has been sent. */
module BroadcastHub {
  import opened JsText
  /** `MAX_HISTORY` */
  const MaxHistory: nat := 100

  /** The history the server is meant to keep after publishing `published`:
      its last `MaxHistory` messages, oldest first. */
  function Window<M>(published: seq<M>): seq<M> {
    if |published| <= MaxHistory then published else published[|published| - MaxHistory..]
  }

  /** The window is a suffix of what was published: all of it while there
      are at most `MaxHistory` messages, and the last `MaxHistory` after. */
  lemma WindowShape<M>(published: seq<M>)
    ensures var w := Window(published);
      |w| == Min(|published|, MaxHistory) && w == published[|published| - |w|..]
  {
  }

  /** `messageHistory.push(message)`, then `shift()` once the history is
      longer than `MAX_HISTORY`. */
  function PushBounded<M>(history: seq<M>, m: M): seq<M> {
    var pushed := history + [m];
    if |pushed| > MaxHistory then pushed[1..] else pushed
  }

  /** Pushing onto the window of what was published gives the window of what
      is published now: one shift is always enough. */
  lemma PushWindow<M>(published: seq<M>, m: M)
    ensures PushBounded(Window(published), m) == Window(published + [m])
  {
    var p := published + [m];
    if |published| > MaxHistory {
      assert Window(published) + [m] == p[|p| - MaxHistory - 1..];
    } else if |published| == MaxHistory {
      assert Window(published) + [m] == p;
    }
  }

  /** The history never grows past `MaxHistory`, and the newest message is
      always its last entry. */
  lemma PushBoundedShape<M>(history: seq<M>, m: M)
    requires |history| <= MaxHistory
    ensures var h := PushBounded(history, m);
      |h| <= MaxHistory && |h| > 0 && h[|h| - 1] == m
      && (|history| < MaxHistory ==> h == history + [m])
      && (|history| == MaxHistory ==> h == history[1..] + [m])
  {
  }

  /** A connected WebSocket: whether its `readyState` is `OPEN`, and the
      messages sent to it so far. */
  class Socket<M> {
    var open: bool
    var received: seq<M>

    constructor (open: bool)
      ensures this.open == open && received == []
    {
      this.open := open;
      received := [];
    }
  }

  /** The server's `clients` set and `messageHistory` array. `published`
      records every message ever broadcast. */
  class Hub<M> {
    var clients: set<Socket<M>>
    var history: seq<M>
    ghost var published: seq<M>

    /** The history is the window of the last `MaxHistory` messages. */
    ghost predicate Valid()
      reads this
    {
      history == Window(published)
    }

    constructor ()
      ensures Valid() && clients == {} && history == [] && published == []
    {
      clients := {};
      history := [];
      published := [];
    }

    /** `wss.on('connection')`: the socket joins the clients and, when it is
        open, is sent the whole history in order. */
    method Connect(ws: Socket<M>)
      requires Valid()
      modifies this, ws
      ensures Valid()
      ensures clients == old(clients) + {ws}
      ensures history == old(history) && published == old(published)
      ensures ws.open == old(ws.open)
      ensures ws.received == old(ws.received) + (if ws.open then history else [])
    {
      clients := clients + {ws};
      var i := 0;
      while i < |history|
        invariant 0 <= i <= |history|
        invariant clients == old(clients) + {ws}
        invariant history == old(history) && published == old(published)
        invariant ws.open == old(ws.open)
        invariant ws.received == old(ws.received) + (if ws.open then history[..i] else [])
      {
        if ws.open {
          ws.received := ws.received + [history[i]];
        }
        i := i + 1;
      }
      assert history[..|history|] == history;
    }

    /** `ws.on('close')`: the socket leaves the clients; nothing else
        changes. */
    method Close(ws: Socket<M>)
      requires Valid()
      modifies this
      ensures Valid()
      ensures clients == old(clients) - {ws}
      ensures history == old(history) && published == old(published)
    {
      clients := clients - {ws};
    }

    /** `broadcast(message)`: the message enters the bounded history and is
        sent to every open client; closed clients are skipped. */
    method Broadcast(m: M)
      requires Valid()
      modifies this, clients
      ensures Valid()
      ensures published == old(published) + [m]
      ensures history == PushBounded(old(history), m)
      ensures clients == old(clients)
      ensures forall c :: c in clients ==> c.open == old(c.open)
      ensures forall c :: c in clients ==> c.received == old(c.received) + (if c.open then [m] else [])
    {
      PushWindow(published, m);
      history := history + [m];
      if |history| > MaxHistory {
        history := history[1..];
      }
      published := published + [m];
      Deliver(m);
    }

    /** The `clients.forEach` of `broadcast`: every open client is sent the
        message, in whatever order the set yields them. */
    method Deliver(m: M)
      modifies clients
      ensures forall c :: c in clients ==> c.open == old(c.open)
      ensures forall c :: c in clients ==> c.received == old(c.received) + (if c.open then [m] else [])
    {
      var pending := clients;
      while pending != {}
        invariant pending <= clients
        invariant forall c :: c in clients ==> c.open == old(c.open)
        invariant forall c :: c in pending ==> c.received == old(c.received)
        invariant forall c :: c in clients && c !in pending ==> c.received == old(c.received) + (if c.open then [m] else [])
        decreases pending
      {
        var client :| client in pending;
        if client.open {
          client.received := client.received + [m];
        }
        pending := pending - {client};
      }
    }
  }

  /** Broadcasting a run of messages to a hub without clients publishes
      them in order. */
  method BroadcastAll<M>(hub: Hub<M>, ms: seq<M>)
    requires hub.Valid() && hub.clients == {}
    modifies hub
    ensures hub.Valid() && hub.clients == {}
    ensures hub.published == old(hub.published) + ms
  {
    var i := 0;
    while i < |ms|
      invariant 0 <= i <= |ms|
      invariant hub.Valid() && hub.clients == {}
      invariant hub.published == old(hub.published) + ms[..i]
    {
      assert ms[..i + 1] == ms[..i] + [ms[i]];
      hub.Broadcast(ms[i]);
      i := i + 1;
    }
    assert ms[..i] == ms;
  }

  /** A client that connects after any run of broadcasts is sent exactly the
      last `MaxHistory` of them (all of them if there were fewer), oldest
      first, provided it is open. */
  method ReplayAfterBroadcasts<M>(ms: seq<M>, ws: Socket<M>) returns (hub: Hub<M>)
    modifies ws
    ensures ws.received == old(ws.received) + (if old(ws.open) then Window(ms) else [])
    ensures hub.clients == {ws}
  {
    hub := new Hub();
    BroadcastAll(hub, ms);
    hub.Connect(ws);
  }
}
