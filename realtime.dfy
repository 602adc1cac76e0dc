/**
 * The websocket side of the server: one registry from user id to the
 * connection that last authenticated as that user, shared by all
 * connections, and one session per connection that remembers which user it
 * authenticated as. Parsed frames arrive as `Inbound` values; a frame that
 * does not parse is `Malformed`.
 */
module Realtime {
  import opened Wrappers
  import Schema

  /** The `message` field of a relay frame, forwarded untouched. */
  type Payload = string

  datatype ReadyState = Connecting | Open | Closing | Closed

  /** The `new_message` frame sent to a recipient. */
  datatype Outbound = NewMessage(message: Payload, senderId: Schema.UserId)

  /** One websocket: its state and every frame sent down it so far. */
  class Connection {
    var readyState: ReadyState
    var sent: seq<Outbound>

    constructor ()
      ensures readyState == Open && sent == []
    {
      readyState := Open;
      sent := [];
    }

    method Send(frame: Outbound)
      modifies this
      ensures sent == old(sent) + [frame] && readyState == old(readyState)
    {
      sent := sent + [frame];
    }
  }

  /** `connectedUsers`: the user id each live connection registered under. */
  class Registry {
    var entries: map<Schema.UserId, Connection>

    constructor ()
      ensures entries == map[]
    {
      entries := map[];
    }

    function Get(u: Schema.UserId): (r: Option<Connection>)
      reads this
      ensures r.Some? <==> u in entries
      ensures r.Some? ==> r.value == entries[u]
    {
      if u in entries then Some(entries[u]) else None
    }

    method Set(u: Schema.UserId, c: Connection)
      modifies this
      ensures entries == old(entries)[u := c]
    {
      entries := entries[u := c];
    }

    method Delete(u: Schema.UserId)
      modifies this
      ensures entries == old(entries) - {u}
    {
      entries := entries - {u};
    }
  }

  /**
   * A parsed inbound frame. Ids are optional because a frame may leave them
   * out; `Unknown` is a frame whose type is neither "auth" nor "message".
   */
  datatype Inbound =
    | Auth(userId: Option<string>)
    | Relay(recipientId: Option<string>, message: Payload)
    | Unknown
    | Malformed

  /** JavaScript truthiness of an optional string: present and not empty. */
  predicate Truthy(u: Option<string>) {
    u.Some? && u.value != ""
  }

  /** The registry key an event binds to this connection, if any. */
  function Registration(ev: Inbound): (r: Option<Schema.UserId>)
    ensures r.Some? <==> ev.Auth? && Truthy(ev.userId)
    ensures r.Some? ==> r.value != "" && Some(r.value) == ev.userId
  {
    if ev.Auth? && Truthy(ev.userId) then ev.userId else None
  }

  /**
   * The recipient key to look up and the frame to send when the event is a
   * relay on an authenticated session; the frame always names the session's
   * own user as sender, whatever the client wrote.
   */
  function Forward(ev: Inbound, session: Option<string>): (r: Option<(Schema.UserId, Outbound)>)
    ensures r.Some? <==> ev.Relay? && Truthy(session) && ev.recipientId.Some?
    ensures r.Some? ==> Some(r.value.0) == ev.recipientId
    ensures r.Some? ==> r.value.1 == NewMessage(ev.message, session.value) && r.value.1.senderId != ""
  {
    if ev.Relay? && Truthy(session) && ev.recipientId.Some? then
      Some((ev.recipientId.value, NewMessage(ev.message, session.value)))
    else None
  }

  /** The per-connection handler state: the connection, the shared registry and the bound user. */
  class Session {
    const ws: Connection
    const registry: Registry
    var userId: Option<string>

    constructor (ws: Connection, registry: Registry)
      ensures this.ws == ws && this.registry == registry && userId == None
    {
      this.ws := ws;
      this.registry := registry;
      userId := None;
    }

    /**
     * The `message` handler. An auth frame rebinds the session (even to a
     * falsy id) and registers a truthy id, overwriting any other connection
     * under it and leaving any entry under the previous id in place. A relay
     * on an authenticated session sends one frame to the registered
     * recipient when that connection is open. Anything else changes nothing.
     * A socket emits no message events once it has closed.
     */
    method OnMessage(ev: Inbound)
      requires ws.readyState != Closed
      modifies this, registry, registry.entries.Values
      ensures ev.Auth? ==> userId == ev.userId
      ensures !ev.Auth? ==> userId == old(userId)
      ensures Registration(ev).Some? ==> registry.entries == old(registry.entries)[Registration(ev).value := ws]
      ensures Registration(ev).None? ==> registry.entries == old(registry.entries)
      ensures var fwd := Forward(ev, old(userId));
        if fwd.Some? && fwd.value.0 in old(registry.entries) && old(registry.entries[fwd.value.0].readyState) == Open then
          var to := old(registry.entries[fwd.value.0]);
          && to.sent == old(to.sent) + [fwd.value.1] && to.readyState == old(to.readyState)
          && forall c :: c in old(registry.entries.Values) && c != to ==> unchanged(c)
        else
          forall c :: c in old(registry.entries.Values) ==> unchanged(c)
    {
      match ev
      case Auth(u) =>
        userId := u;
        if Truthy(u) {
          registry.Set(u.value, ws);
        }
      case Relay(recipientId, message) =>
        var fwd := Forward(ev, userId);
        if fwd.Some? {
          var recipient := registry.Get(fwd.value.0);
          if recipient.Some? && recipient.value.readyState == Open {
            recipient.value.Send(fwd.value.1);
          }
        }
      case Unknown =>
      case Malformed =>
    }

    /**
     * The socket closes, then the `close` handler runs: an authenticated
     * session deletes its user's entry, whichever connection it holds now.
     */
    method OnClose()
      modifies ws, registry
      ensures ws.readyState == Closed && ws.sent == old(ws.sent)
      ensures userId == old(userId)
      ensures Truthy(userId) ==> registry.entries == old(registry.entries) - {userId.value}
      ensures !Truthy(userId) ==> registry.entries == old(registry.entries)
    {
      ws.readyState := Closed;
      if Truthy(userId) {
        registry.Delete(userId.value);
      }
    }
  }

  // ===================== end-to-end runs =====================

  /**
   * u1 connects twice; the first connection then closes. Its close handler
   * removes the entry that the second, still open, connection holds.
   */
  method StaleCloseScenario() returns (entry: Option<Connection>, newerState: ReadyState)
    ensures entry.None?
    ensures newerState == Open
  {
    var registry := new Registry();
    var older := new Connection();
    var first := new Session(older, registry);
    first.OnMessage(Auth(Some("u1")));
    var newer := new Connection();
    var second := new Session(newer, registry);
    second.OnMessage(Auth(Some("u1")));
    assert registry.entries["u1"] == newer;
    first.OnClose();
    entry := registry.Get("u1");
    newerState := newer.readyState;
  }

  /**
   * A connection authenticates as u1, then as u2, then closes: the u2 entry
   * goes, and the u1 entry stays, pointing at a closed connection.
   */
  method ReauthScenario() returns (stale: Option<ReadyState>, current: Option<Connection>)
    ensures stale == Some(Closed)
    ensures current.None?
  {
    var registry := new Registry();
    var ws := new Connection();
    var session := new Session(ws, registry);
    session.OnMessage(Auth(Some("u1")));
    session.OnMessage(Auth(Some("u2")));
    session.OnClose();
    var entry := registry.Get("u1");
    stale := if entry.Some? then Some(entry.value.readyState) else None;
    current := registry.Get("u2");
  }

  /** a1 relays "hi" to the registered, open b2, which receives one frame sent as a1. */
  method RelayScenario() returns (received: seq<Outbound>)
    ensures received == [NewMessage("hi", "a1")]
  {
    var registry := new Registry();
    var wa := new Connection();
    var wb := new Connection();
    var sa := new Session(wa, registry);
    var sb := new Session(wb, registry);
    sa.OnMessage(Auth(Some("a1")));
    sb.OnMessage(Auth(Some("b2")));
    assert registry.entries == map["a1" := wa, "b2" := wb];
    sa.OnMessage(Relay(Some("b2"), "hi"));
    received := wb.sent;
  }

  /**
   * A connection that never authenticated relays to b2, and b2 relays to
   * c3, whom nobody registered: nothing is sent to anyone.
   */
  method UndeliveredScenario() returns (received: seq<Outbound>, unauthenticated: Option<string>)
    ensures received == []
    ensures unauthenticated.None?
  {
    var registry := new Registry();
    var wb := new Connection();
    var anon := new Connection();
    var sb := new Session(wb, registry);
    var sx := new Session(anon, registry);
    sb.OnMessage(Auth(Some("b2")));
    sx.OnMessage(Relay(Some("b2"), "spoofed"));
    sb.OnMessage(Relay(Some("c3"), "hello"));
    received, unauthenticated := wb.sent, sx.userId;
  }
}
