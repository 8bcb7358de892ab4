/** Operation routing (`FUNCTION_MAP`, `parse_operation`) and what the
    receive loop of `ws_handler` does with a run of inbound frames. */
module Router {
  import opened Wrappers
  import opened Json
  import opened Clients
  import opened Broadcast

  /** The handlers `FUNCTION_MAP` can name. */
  datatype Handler = CreateMessageHandler

  /** `FUNCTION_MAP`: operation tag to handler. */
  const FunctionMap: map<string, Handler> := map["CREATE_MESSAGE" := CreateMessageHandler]

  /** One inbound frame: text carrying a document (None when the text is not
      JSON), or a binary frame. */
  datatype Frame = Text(decoded: Option<Json>) | Binary

  /** `FUNCTION_MAP[op]`: a list or dict raises TypeError (unhashable), any
      other value that is not one of the map's strings raises KeyError. */
  function Lookup(op: Json): (r: Result<Handler, Error>)
    // The one routed operation is CREATE_MESSAGE; any other string, number,
    // boolean or null is a missing key, and a list or dict cannot be a key.
    ensures r == Success(CreateMessageHandler) <==> op == JStr("CREATE_MESSAGE")
    ensures op.JArr? || op.JObj? ==> r == Failure(TypeError)
    ensures op != JStr("CREATE_MESSAGE") && !op.JArr? && !op.JObj? ==> r == Failure(KeyError)
  {
    if !Hashable(op) then Failure(TypeError)
    else if op.JStr? && op.s in FunctionMap then Success(FunctionMap[op.s])
    else Failure(KeyError)
  }

  /** `parse_operation`: decode, read `op` and `message` (in that order),
      look the handler up and run it. `payload` is the frame's parse tree;
      the handler receives `message` as the Python value `json.loads` built
      (`Loaded`), which is what `json.dumps` sends on. Nothing is caught
      here, so every failure is an exception that leaves the caller's
      receive loop. */
  function ParseOperation(clients: seq<Client>, client: Client, payload: Option<Json>): (r: Result<seq<Outbound>, Error>)
    ensures r.Success? <==> payload.Some? && Path(payload.value, ["op"]) == Some(JStr("CREATE_MESSAGE"))
                            && Path(payload.value, ["message"]).Some? && clients != []
    ensures r.Success? ==> r.value == Fanout(clients, NewMessage(client, Loaded(Path(payload.value, ["message"]).value)))
    ensures payload.None? ==> r == Failure(DecodeError)
  {
    if payload.None? then Failure(DecodeError)
    else
      var request := payload.value;
      assert ["op"][1..] == [] && ["message"][1..] == [];
      var op :- Index(request, "op");
      var message :- Index(request, "message");
      var handler :- Lookup(op);
      match handler
      case CreateMessageHandler => CreateMessage(clients, client, Loaded(message))
  }

  /** How the receive loop ended: the peer closed the connection, or an
      exception escaped `parse_operation`. */
  datatype Exit = Disconnected | Raised(error: Error)

  datatype Relayed = Relayed(sent: seq<Outbound>, exit: Exit)

  /** The body of `ws_handler`'s `async for` over `frames` for an admitted
      `client`, the registry being `clients` throughout: text frames are
      routed in arrival order, binary frames are skipped, and the first
      failure ends the loop. */
  function Relay(clients: seq<Client>, client: Client, frames: seq<Frame>): Relayed
    decreases |frames|
  {
    if frames == [] then Relayed([], Disconnected)
    else match frames[0]
      case Binary => Relay(clients, client, frames[1..])
      case Text(payload) =>
        match ParseOperation(clients, client, payload)
        case Failure(e) => Relayed([], Raised(e))
        case Success(out) =>
          var rest := Relay(clients, client, frames[1..]);
          Relayed(out + rest.sent, rest.exit)
  }

  /** One iteration of the loop, at position `i` of `frames`. */
  lemma RelayStep(clients: seq<Client>, client: Client, frames: seq<Frame>, i: nat)
    requires i < |frames|
    ensures frames[i].Binary? ==> Relay(clients, client, frames[i..]) == Relay(clients, client, frames[i + 1..])
    ensures frames[i].Text? ==>
              var rest := Relay(clients, client, frames[i + 1..]);
              Relay(clients, client, frames[i..]) ==
                match ParseOperation(clients, client, frames[i].decoded)
                case Failure(e) => Relayed([], Raised(e))
                case Success(out) => Relayed(out + rest.sent, rest.exit)
  {
  }

  /** Every send the loop makes goes to a connection in the registry. */
  lemma {:induction false} RelaySendsOnlyToMembers(clients: seq<Client>, client: Client, frames: seq<Frame>)
    ensures forall k :: 0 <= k < |Relay(clients, client, frames).sent| ==> Relay(clients, client, frames).sent[k].to in Conns(clients)
  {
    if frames != [] {
      RelaySendsOnlyToMembers(clients, client, frames[1..]);
      if frames[0].Text? && ParseOperation(clients, client, frames[0].decoded).Success? {
        var out := ParseOperation(clients, client, frames[0].decoded).value;
        var rest := Relay(clients, client, frames[1..]).sent;
        forall k | 0 <= k < |out| ensures out[k].to in Conns(clients) {
          assert out[k].to == clients[k].ws;
        }
        assert Relay(clients, client, frames).sent == out + rest;
      }
    }
  }

  /** The text frames of `frames`, in order. */
  function TextFrames(frames: seq<Frame>): seq<Frame> {
    if frames == [] then []
    else if frames[0].Binary? then TextFrames(frames[1..])
    else [frames[0]] + TextFrames(frames[1..])
  }

  /** Binary frames have no effect on the loop. */
  lemma {:induction false} RelayIgnoresBinary(clients: seq<Client>, client: Client, frames: seq<Frame>)
    ensures Relay(clients, client, TextFrames(frames)) == Relay(clients, client, frames)
  {
    if frames != [] {
      RelayIgnoresBinary(clients, client, frames[1..]);
      if frames[0].Text? {
        assert ([frames[0]] + TextFrames(frames[1..]))[1..] == TextFrames(frames[1..]);
      }
    }
  }

  /** Nothing after a failing frame is processed: the loop has already ended. */
  lemma {:induction false} RelayHalts(clients: seq<Client>, client: Client, before: seq<Frame>, bad: Frame, after: seq<Frame>)
    requires bad.Text? && ParseOperation(clients, client, bad.decoded).Failure?
    ensures Relay(clients, client, before + [bad]).exit.Raised?
    ensures Relay(clients, client, before + [bad] + after) == Relay(clients, client, before + [bad])
  {
    if before == [] {
      assert ([bad] + after)[1..] == after;
    } else {
      RelayHalts(clients, client, before[1..], bad, after);
      assert (before + [bad] + after)[1..] == before[1..] + [bad] + after;
      assert (before + [bad])[1..] == before[1..] + [bad];
    }
  }

  /** The loop ends because the peer disconnected exactly when every text
      frame routes without an exception. */
  lemma {:induction false} RelayDisconnectsIff(clients: seq<Client>, client: Client, frames: seq<Frame>)
    ensures Relay(clients, client, frames).exit == Disconnected
            <==> forall k :: 0 <= k < |frames| && frames[k].Text? ==>
                   ParseOperation(clients, client, frames[k].decoded).Success?
  {
    if frames != [] {
      RelayDisconnectsIff(clients, client, frames[1..]);
      assert forall k :: 1 <= k < |frames| ==> frames[k] == frames[1..][k - 1];
    }
  }

  /** When the loop ends because the peer left, every registered connection
      received exactly one send per text frame, and nobody else received
      anything. */
  lemma {:induction false} RelayReachesEachMemberOnce(clients: seq<Client>, client: Client, frames: seq<Frame>, to: ConnId)
    requires Distinct(clients)
    requires Relay(clients, client, frames).exit == Disconnected
    ensures SendsTo(Relay(clients, client, frames).sent, to) == (if to in Conns(clients) then |TextFrames(frames)| else 0)
  {
    if frames != [] {
      var rest := Relay(clients, client, frames[1..]);
      if frames[0].Binary? {
        assert Relay(clients, client, frames) == rest;
        assert TextFrames(frames) == TextFrames(frames[1..]);
        RelayReachesEachMemberOnce(clients, client, frames[1..], to);
      } else {
        var r := ParseOperation(clients, client, frames[0].decoded);
        assert r.Success?;
        assert Relay(clients, client, frames) == Relayed(r.value + rest.sent, rest.exit);
        assert |TextFrames(frames)| == 1 + |TextFrames(frames[1..])|;
        RelayReachesEachMemberOnce(clients, client, frames[1..], to);
        RoutedOncePerMember(clients, client, frames[0].decoded, to);
        SendsToConcat(r.value, rest.sent, to);
      }
    }
  }

  /** A routed message reaches each registered connection once. */
  lemma RoutedOncePerMember(clients: seq<Client>, client: Client, payload: Option<Json>, to: ConnId)
    requires Distinct(clients)
    requires ParseOperation(clients, client, payload).Success?
    ensures SendsTo(ParseOperation(clients, client, payload).value, to) == (if to in Conns(clients) then 1 else 0)
  {
    FanoutOncePerMember(clients, NewMessage(client, Loaded(Path(payload.value, ["message"]).value)), to);
  }
}
