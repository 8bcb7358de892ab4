/** The `Server` object: its client list, the handshake, the receive loop
    with its cleanup, and shutdown. */
module Server {
  import opened Wrappers
  import opened Json
  import opened Clients
  import opened Broadcast
  import opened Router

  /** What `ws.recv()` gives the handshake: a frame, or ConnectionClosed
      raised because the peer left before answering. */
  datatype Reply = Received(frame: Frame) | PeerClosed

  /** How the handshake reads the reply. */
  datatype Greeting =
    | Greets(name: Json)   // a HELLO whose `message` is `name`
    | WrongOp              // a document whose `op` is not "HELLO"
    | NotText              // a binary frame
    | Broken(error: Error) // an exception: not JSON, no `op` or `message`, not a dict, peer gone

  /** The checks of `perform_handshake` on the reply, in the order the code
      makes them: text, JSON, `op` present and equal to "HELLO", `message`
      present. */
  function ReadGreeting(reply: Reply): (g: Greeting)
    ensures g.Greets? <==> reply.Received? && reply.frame.Text? && reply.frame.decoded.Some?
                           && Path(reply.frame.decoded.value, ["op"]) == Some(JStr("HELLO"))
                           && Path(reply.frame.decoded.value, ["message"]).Some?
    ensures g.Greets? ==> Path(reply.frame.decoded.value, ["message"]) == Some(g.name)
    ensures g == WrongOp <==> reply.Received? && reply.frame.Text? && reply.frame.decoded.Some?
                              && Path(reply.frame.decoded.value, ["op"]).Some?
                              && Path(reply.frame.decoded.value, ["op"]) != Some(JStr("HELLO"))
    ensures g == NotText <==> reply == Received(Binary)
  {
    assert ["op"][1..] == [] && ["message"][1..] == [];
    match reply
    case PeerClosed => Broken(ConnectionClosed)
    case Received(Binary) => NotText
    case Received(Text(None)) => Broken(DecodeError)
    case Received(Text(Some(response))) =>
      match Index(response, "op")
      case Failure(e) => Broken(e)
      case Success(op) =>
        if op != JStr("HELLO") then WrongOp
        else
          match Index(response, "message")
          case Failure(e) => Broken(e)
          case Success(message) => Greets(message)
  }

  /** The outcome of `perform_handshake`: the admitted client (None otherwise),
      every send it made in order, whether it called `ws.close()`, and the
      exception that escaped it, if any. */
  datatype HandshakeResult = HandshakeResult(client: Option<Client>, sent: seq<Outbound>, closed: bool, raised: Option<Error>)

  /** The registry and the outcome after one handshake. */
  datatype Handshaken = Handshaken(clients: seq<Client>, result: HandshakeResult)

  /** What `perform_handshake` does to the client list `clients` (capacity
      `maxClients`) for connection `ws` answering `reply`, `freshId` standing
      for the `uuid4().hex` the code draws. */
  function Handshake(clients: seq<Client>, maxClients: int, ws: ConnId, reply: Reply, freshId: string): (h: Handshaken)
    // A full server answers DISALLOWED, closes, and changes nothing.
    ensures |clients| == maxClients ==>
              h == Handshaken(clients, HandshakeResult(None, [Send(ws, Hello(false))], true, None))
    // Otherwise the first thing the peer gets is ALLOWED.
    ensures |clients| != maxClients ==> 1 <= |h.result.sent| && h.result.sent[0] == Send(ws, Hello(true))
    // Admission happens exactly for a well-formed HELLO when there is room.
    ensures h.result.client.Some? <==> |clients| != maxClients && ReadGreeting(reply).Greets?
    ensures h.result.client.Some? ==>
              var c := h.result.client.value;
              && c == Client(freshId, Str(ReadGreeting(reply).name), ws)
              && h.clients == clients + [c]
              && h.result.sent == [Send(ws, Hello(true)), Send(ws, IdAssign(freshId))] + Fanout(h.clients, NewMember(c))
              && !h.result.closed && h.result.raised == None
    // Without admission the list is untouched; after ALLOWED nothing more is
    // sent, the connection is closed only for a wrong op, and an exception
    // escapes for a reply that is not JSON, not a dict or lacks a field.
    ensures h.result.client.None? ==> h.clients == clients
    ensures |clients| != maxClients && !ReadGreeting(reply).Greets? ==>
              && h.result.sent == [Send(ws, Hello(true))]
              && h.result.closed == (ReadGreeting(reply) == WrongOp)
              && h.result.raised == (if ReadGreeting(reply).Broken? then Some(ReadGreeting(reply).error) else None)
  {
    if |clients| == maxClients then
      Handshaken(clients, HandshakeResult(None, [Send(ws, Hello(false))], true, None))
    else
      var allowed := [Send(ws, Hello(true))];
      match ReadGreeting(reply)
      case NotText => Handshaken(clients, HandshakeResult(None, allowed, false, None))
      case Broken(e) => Handshaken(clients, HandshakeResult(None, allowed, false, Some(e)))
      case WrongOp => Handshaken(clients, HandshakeResult(None, allowed, true, None))
      case Greets(message) =>
        var client := Client(freshId, Str(message), ws);
        var registered := clients + [client];
        var sent := [Send(ws, Hello(true)), Send(ws, IdAssign(freshId))] + NotifyNewConnect(registered, client).value;
        Handshaken(registered, HandshakeResult(Some(client), sent, false, None))
  }

  /** Starting within the bound with distinct entries, a handshake with a
      fresh id and a new connection stays within the bound and distinct.
      The equality gate suffices only because the list can never be longer
      than a non-negative bound to begin with. */
  lemma HandshakeKeepsBound(clients: seq<Client>, maxClients: int, ws: ConnId, reply: Reply, freshId: string)
    requires 0 <= maxClients && |clients| <= maxClients && Distinct(clients)
    requires freshId !in Ids(clients) && ws !in Conns(clients)
    ensures |Handshake(clients, maxClients, ws, reply, freshId).clients| <= maxClients
    ensures Distinct(Handshake(clients, maxClients, ws, reply, freshId).clients)
  {
  }


  lemma ConsPair<T>(a: seq<T>, b: seq<T>, x: T, y: T, rest: seq<T>)
    requires a == [x] && b == [y] + rest
    ensures a + b == [x, y] + rest
  {
  }

  class Server {
    const maxClients: int
    var clients: seq<Client>

    /** The registry invariant: within the bound (when the bound is not
        negative), and no two entries share an id or a connection. */
    ghost predicate Valid()
      reads this
    {
      (0 <= maxClients ==> |clients| <= maxClients) && Distinct(clients)
    }

    constructor (maxClients: int)
      ensures this.maxClients == maxClients && clients == [] && Valid()
    {
      this.maxClients := maxClients;
      clients := [];
    }

    /** `perform_handshake` on connection `ws`, the peer answering `reply`;
        `freshId` stands for the `uuid4().hex` the code draws. */
    method PerformHandshake(ws: ConnId, reply: Reply, freshId: string) returns (res: HandshakeResult)
      requires Valid()
      requires freshId !in Ids(clients) && ws !in Conns(clients)
      modifies this
      ensures Valid()
      ensures Handshaken(clients, res) == Handshake(old(clients), maxClients, ws, reply, freshId)
    {
      var sent: seq<Outbound> := [];
      if |clients| == maxClients {
        sent := sent + [Send(ws, Hello(false))];
        return HandshakeResult(None, sent, true, None);
      }
      sent := sent + [Send(ws, Hello(true))];
      var greeting := ReadGreeting(reply);
      match greeting
      case NotText =>
        return HandshakeResult(None, sent, false, None);
      case Broken(e) =>
        return HandshakeResult(None, sent, false, Some(e));
      case WrongOp =>
        return HandshakeResult(None, sent, true, None);
      case Greets(message) =>
        var client, admitted := Admit(ws, message, freshId);
        ConsPair(sent, admitted, Send(ws, Hello(true)), Send(ws, IdAssign(freshId)), Fanout(clients, NewMember(client)));
        sent := sent + admitted;
        return HandshakeResult(Some(client), sent, false, None);
    }

    /** The admission tail of `perform_handshake`: build the client with the
        fresh id and `str(message)` as its name, send ID_ASSIGN, append it to
        the list and announce it to the whole new list. */
    method Admit(ws: ConnId, message: Json, freshId: string) returns (client: Client, sent: seq<Outbound>)
      requires Valid() && |clients| != maxClients
      requires freshId !in Ids(clients) && ws !in Conns(clients)
      modifies this
      ensures Valid()
      ensures client == Client(freshId, Str(message), ws)
      ensures clients == old(clients) + [client]
      ensures sent == [Send(ws, IdAssign(freshId))] + Fanout(clients, NewMember(client))
    {
      client := Client(freshId, Str(message), ws);
      sent := [Send(ws, IdAssign(freshId))];
      AppendThenRemove(clients, client);
      clients := clients + [client];
      var notified := NotifyNewConnect(clients, client);
      sent := sent + notified.value;
    }

    /** `cleanup_client_info`: remove the client, or leave the list alone
        when it is absent (the ValueError is caught and only logged). */
    method CleanupClientInfo(client: Client)
      requires Valid()
      modifies this
      ensures Valid()
      ensures clients == RemoveFirst(old(clients), client)
      ensures client !in clients
      ensures client !in old(clients) ==> clients == old(clients)
    {
      RemoveFirstDistinct(clients, client);
      RemoveFirstShrinks(clients, client);
      RemoveFirstIdempotent(clients, client);
      if client in clients {
        clients := RemoveFirst(clients, client);
      }
    }

    /** The `try`/`finally` of `ws_handler` after a successful handshake:
        route every text frame until the peer leaves or an exception
        escapes, then clean up on either exit. */
    method ReceiveLoop(client: Client, frames: seq<Frame>) returns (sent: seq<Outbound>, exit: Exit)
      requires Valid()
      modifies this
      ensures Valid()
      ensures Relayed(sent, exit) == Relay(old(clients), client, frames)
      ensures clients == RemoveFirst(old(clients), client)
    {
      sent, exit := [], Disconnected;
      var registry := clients;
      var i := 0;
      while i < |frames| && exit == Disconnected
        invariant 0 <= i <= |frames|
        invariant clients == registry
        invariant exit == Disconnected ==>
                    var rest := Relay(registry, client, frames[i..]);
                    Relay(registry, client, frames) == Relayed(sent + rest.sent, rest.exit)
        invariant exit.Raised? ==> Relay(registry, client, frames) == Relayed(sent, exit)
      {
        RelayStep(registry, client, frames, i);
        if frames[i].Text? {
          var routed := ParseOperation(registry, client, frames[i].decoded);
          if routed.Success? {
            ghost var rest := Relay(registry, client, frames[i + 1..]).sent;
            assert sent + (routed.value + rest) == (sent + routed.value) + rest;
            sent := sent + routed.value;
          } else {
            exit := Raised(routed.error);
          }
        }
        i := i + 1;
      }
      assert exit == Disconnected ==> frames[i..] == [];
      CleanupClientInfo(client);
    }

    /** `ws_handler` for one connection: the handshake, then, for an
        admitted client, the receive loop and its cleanup. Whatever path
        is taken, the registry ends as it began. */
    method WsHandler(ws: ConnId, reply: Reply, freshId: string, frames: seq<Frame>)
      returns (handshake: HandshakeResult, sent: seq<Outbound>, exit: Option<Exit>)
      requires Valid()
      requires freshId !in Ids(clients) && ws !in Conns(clients)
      modifies this
      ensures Valid()
      ensures clients == old(clients)
      ensures handshake == Handshake(old(clients), maxClients, ws, reply, freshId).result
      ensures handshake.client.Some? <==> |old(clients)| != maxClients && ReadGreeting(reply).Greets?
      ensures handshake.client.None? ==> sent == [] && exit == None
      ensures handshake.client.Some? ==>
                var c := handshake.client.value;
                exit.Some? && Relayed(sent, exit.value) == Relay(old(clients) + [c], c, frames)
    {
      sent, exit := [], None;
      handshake := PerformHandshake(ws, reply, freshId);
      if handshake.client.None? {
        return;
      }
      var client := handshake.client.value;
      AppendThenRemove(old(clients), client);
      var loopExit;
      sent, loopExit := ReceiveLoop(client, frames);
      exit := Some(loopExit);
    }

    /** The state part of `close`: the client list is emptied. */
    method Close()
      requires Valid()
      modifies this
      ensures Valid()
      ensures clients == []
    {
      clients := [];
    }
  }
}
