/** The envelopes the server sends and the broadcast fan-out of
    `notify_new_connect` and `create_message`. */
module Broadcast {
  import opened Wrappers
  import opened Json
  import opened Clients

  /** One `ws.send` handed to the transport: the recipient's connection and
      the document that is serialised for it. */
  datatype Outbound = Send(to: ConnId, doc: Json)

  /** The wire unit `{"op": op, "message": message}`. */
  function Envelope(op: string, message: Json): (r: Json)
    ensures Path(r, ["op"]) == Some(JStr(op))
    ensures Path(r, ["message"]) == Some(message)
  {
    var fields := [("op", JStr(op)), ("message", message)];
    assert fields[..1] == [("op", JStr(op))];
    assert Get(fields[..1], "op") == Some(JStr(op));
    assert ["op"][1..] == [] && ["message"][1..] == [];
    JObj(fields)
  }

  /** The handshake's first envelope: HELLO with ALLOWED or DISALLOWED. */
  function Hello(allowed: bool): (r: Json)
    ensures Path(r, ["op"]) == Some(JStr("HELLO"))
    ensures Path(r, ["message"]) == Some(JStr(if allowed then "ALLOWED" else "DISALLOWED"))
  {
    Envelope("HELLO", JStr(if allowed then "ALLOWED" else "DISALLOWED"))
  }

  /** The envelope that tells an admitted peer its id. */
  function IdAssign(cid: string): (r: Json)
    ensures Path(r, ["op"]) == Some(JStr("ID_ASSIGN"))
    ensures Path(r, ["message"]) == Some(JStr(cid))
  {
    Envelope("ID_ASSIGN", JStr(cid))
  }

  /** `{"id": cid, "name": name}`, the description of a client in broadcasts. */
  function ClientInfo(client: Client): (r: Json)
    ensures Path(r, ["id"]) == Some(JStr(client.cid))
    ensures Path(r, ["name"]) == Some(JStr(client.name))
  {
    var fields := [("id", JStr(client.cid)), ("name", JStr(client.name))];
    assert fields[..1] == [("id", JStr(client.cid))];
    assert Get(fields[..1], "id") == Some(JStr(client.cid));
    assert ["id"][1..] == [] && ["name"][1..] == [];
    JObj(fields)
  }

  /** The NEW_MEMBER payload: a receiver reads back the new client's id and name. */
  function NewMember(client: Client): (r: Json)
    ensures Path(r, ["op"]) == Some(JStr("NEW_MEMBER"))
    ensures Path(r, ["message", "client", "id"]) == Some(JStr(client.cid))
    ensures Path(r, ["message", "client", "name"]) == Some(JStr(client.name))
  {
    var message := JObj([("client", ClientInfo(client))]);
    assert Path(message, ["client", "id"]) == Path(ClientInfo(client), ["id"]);
    assert Path(message, ["client", "name"]) == Path(ClientInfo(client), ["name"]);
    Envelope("NEW_MEMBER", message)
  }

  /** The NEW_MESSAGE payload: a receiver reads back the sender's id and
      name and the content exactly as the sender gave it. */
  function NewMessage(client: Client, content: Json): (r: Json)
    ensures Path(r, ["op"]) == Some(JStr("NEW_MESSAGE"))
    ensures Path(r, ["message", "client", "id"]) == Some(JStr(client.cid))
    ensures Path(r, ["message", "client", "name"]) == Some(JStr(client.name))
    ensures Path(r, ["message", "content"]) == Some(content)
  {
    var fields := [("client", ClientInfo(client)), ("content", content)];
    assert fields[..1] == [("client", ClientInfo(client))];
    assert Get(fields[..1], "client") == Some(ClientInfo(client));
    var message := JObj(fields);
    assert Path(message, ["client", "id"]) == Path(ClientInfo(client), ["id"]);
    assert Path(message, ["client", "name"]) == Path(ClientInfo(client), ["name"]);
    Envelope("NEW_MESSAGE", message)
  }

  /** `[x.ws.send(payload) for x in clients]`: one send per entry, in list
      order, all carrying the same document. */
  function Fanout(clients: seq<Client>, payload: Json): (r: seq<Outbound>)
    ensures |r| == |clients|
    ensures forall k :: 0 <= k < |r| ==> r[k] == Send(clients[k].ws, payload)
  {
    if clients == [] then [] else [Send(clients[0].ws, payload)] + Fanout(clients[1..], payload)
  }

  /** `asyncio.wait` over the fan-out: an empty list of sends raises
      ValueError, otherwise every send is handed to the transport. */
  function Broadcast(clients: seq<Client>, payload: Json): Result<seq<Outbound>, Error> {
    if clients == [] then Failure(ValueError) else Success(Fanout(clients, payload))
  }

  /** `notify_new_connect`: NEW_MEMBER for `client` to everybody in `clients`. */
  function NotifyNewConnect(clients: seq<Client>, client: Client): (r: Result<seq<Outbound>, Error>)
    ensures r.Failure? <==> clients == []
    ensures r.Success? ==> |r.value| == |clients|
    ensures r.Success? ==> forall k :: 0 <= k < |clients| ==> r.value[k] == Send(clients[k].ws, NewMember(client))
    ensures r.Success? ==> r.value == Fanout(clients, NewMember(client))
  {
    Broadcast(clients, NewMember(client))
  }

  /** `create_message`: NEW_MESSAGE from `client` with `content` to everybody
      in `clients`, the sender included when it is registered. */
  function CreateMessage(clients: seq<Client>, client: Client, content: Json): (r: Result<seq<Outbound>, Error>)
    ensures r.Failure? <==> clients == []
    ensures r.Success? ==> |r.value| == |clients|
    ensures r.Success? ==> forall k :: 0 <= k < |clients| ==> r.value[k] == Send(clients[k].ws, NewMessage(client, content))
    ensures r.Success? ==> r.value == Fanout(clients, NewMessage(client, content))
  {
    Broadcast(clients, NewMessage(client, content))
  }

  /** The number of sends addressed to connection `to`. */
  function SendsTo(sent: seq<Outbound>, to: ConnId): nat {
    if sent == [] then 0 else (if sent[0].to == to then 1 else 0) + SendsTo(sent[1..], to)
  }

  /** When connections are distinct, a fan-out reaches every registered
      connection exactly once and no connection outside the list. */
  lemma {:induction false} FanoutOncePerMember(clients: seq<Client>, payload: Json, to: ConnId)
    requires Distinct(clients)
    ensures SendsTo(Fanout(clients, payload), to) == (if to in Conns(clients) then 1 else 0)
  {
    if clients != [] {
      var rest := clients[1..];
      assert Distinct(rest) by {
        forall i, j | 0 <= i < j < |rest| ensures rest[i].cid != rest[j].cid && rest[i].ws != rest[j].ws {
          assert rest[i] == clients[i + 1] && rest[j] == clients[j + 1];
        }
      }
      FanoutOncePerMember(rest, payload, to);
      assert Fanout(clients, payload)[1..] == Fanout(rest, payload);
      assert Conns(clients) == {clients[0].ws} + Conns(rest) by {
        forall w | w in Conns(clients) ensures w == clients[0].ws || w in Conns(rest) {
          var k :| 0 <= k < |clients| && clients[k].ws == w;
          if k > 0 { assert rest[k - 1].ws == w; }
        }
        forall w | w in Conns(rest) ensures w in Conns(clients) {
          var k :| 0 <= k < |rest| && rest[k].ws == w;
          assert clients[k + 1].ws == w;
        }
      }
      assert clients[0].ws !in Conns(rest) by {
        forall k | 0 <= k < |rest| ensures rest[k].ws != clients[0].ws {
          assert rest[k] == clients[k + 1];
        }
      }
    }
  }

  lemma {:induction false} SendsToConcat(a: seq<Outbound>, b: seq<Outbound>, to: ConnId)
    ensures SendsTo(a + b, to) == SendsTo(a, to) + SendsTo(b, to)
  {
    if a != [] {
      SendsToConcat(a[1..], b, to);
      assert (a + b)[1..] == a[1..] + b;
    } else {
      assert a + b == b;
    }
  }
}
