/** ClientModel and the client list the server keeps (`Server.clients`). */
module Clients {

  /** The connection (`websockets` protocol object) a client owns. Only its
      identity matters to the model. */
  type ConnId = nat

  /** An admitted peer: the server-assigned id, the display name it sent in
      its HELLO, and its connection. */
  datatype Client = Client(cid: string, name: string, ws: ConnId)

  function Ids(clients: seq<Client>): set<string> {
    set k | 0 <= k < |clients| :: clients[k].cid
  }

  function Conns(clients: seq<Client>): set<ConnId> {
    set k | 0 <= k < |clients| :: clients[k].ws
  }

  /** No two entries share an id or a connection. */
  ghost predicate Distinct(clients: seq<Client>) {
    forall i, j :: 0 <= i < j < |clients| ==> clients[i].cid != clients[j].cid && clients[i].ws != clients[j].ws
  }

  /** The position of the first entry equal to `client`. */
  function FirstIndex(clients: seq<Client>, client: Client): (i: nat)
    requires client in clients
    ensures i < |clients| && clients[i] == client && client !in clients[..i]
  {
    if clients[0] == client then 0 else 1 + FirstIndex(clients[1..], client)
  }

  /** Python's `list.remove` as `cleanup_client_info` uses it, with the
      ValueError for an absent element caught: the first entry equal to
      `client` is dropped and the order of the rest is kept; if there is none
      the list is returned as it was. */
  function RemoveFirst(clients: seq<Client>, client: Client): (r: seq<Client>)
    ensures client !in clients ==> r == clients
  {
    if clients == [] then []
    else if clients[0] == client then clients[1..]
    else [clients[0]] + RemoveFirst(clients[1..], client)
  }

  /** When the client is present, removal cuts the list at its first
      occurrence and keeps both sides in order. */
  lemma {:induction false} RemoveFirstSplits(clients: seq<Client>, client: Client)
    requires client in clients
    ensures var i := FirstIndex(clients, client);
            RemoveFirst(clients, client) == clients[..i] + clients[i + 1..]
  {
    if clients[0] != client {
      RemoveFirstSplits(clients[1..], client);
      var j := FirstIndex(clients[1..], client);
      assert FirstIndex(clients, client) == j + 1;
      assert clients[..j + 1] == [clients[0]] + clients[1..][..j];
      assert clients[j + 2..] == clients[1..][j + 1..];
    }
  }

  /** Removal drops exactly one entry when the client is present: its
      length falls by one and its contents lose one copy of the client. */
  lemma {:induction false} RemoveFirstShrinks(clients: seq<Client>, client: Client)
    ensures client in clients ==> |RemoveFirst(clients, client)| == |clients| - 1
    ensures multiset(RemoveFirst(clients, client)) == multiset(clients) - multiset{client}
  {
    if clients != [] {
      assert clients == [clients[0]] + clients[1..];
      if clients[0] != client {
        RemoveFirstShrinks(clients[1..], client);
        assert RemoveFirst(clients, client) == [clients[0]] + RemoveFirst(clients[1..], client);
      }
    }
  }

  /** The entries left after a removal are the old ones with one position
      skipped, so ids and connections stay distinct and no new id or
      connection appears. */
  lemma RemoveFirstDistinct(clients: seq<Client>, client: Client)
    requires Distinct(clients)
    ensures Distinct(RemoveFirst(clients, client))
    ensures Ids(RemoveFirst(clients, client)) <= Ids(clients)
    ensures Conns(RemoveFirst(clients, client)) <= Conns(clients)
  {
    if client in clients {
      var i := FirstIndex(clients, client);
      var r := RemoveFirst(clients, client);
      forall a, b | 0 <= a < b < |r| ensures r[a].cid != r[b].cid && r[a].ws != r[b].ws {
        RemoveFirstAt(clients, client, a);
        RemoveFirstAt(clients, client, b);
      }
      forall id | id in Ids(r) ensures id in Ids(clients) {
        var k :| 0 <= k < |r| && r[k].cid == id;
        RemoveFirstAt(clients, client, k);
      }
      forall w | w in Conns(r) ensures w in Conns(clients) {
        var k :| 0 <= k < |r| && r[k].ws == w;
        RemoveFirstAt(clients, client, k);
      }
    }
  }

  /** Position `k` after a removal holds what position `Skip(k, i)` held
      before, `i` being the removed position. */
  lemma RemoveFirstAt(clients: seq<Client>, client: Client, k: nat)
    requires client in clients && k < |RemoveFirst(clients, client)|
    ensures Skip(k, FirstIndex(clients, client)) < |clients|
    ensures RemoveFirst(clients, client)[k] == clients[Skip(k, FirstIndex(clients, client))]
  {
    RemoveFirstSplits(clients, client);
  }

  /** Position `k` of a list from which position `i` was dropped. */
  function Skip(k: nat, i: nat): nat {
    if k < i then k else k + 1
  }

  /** Removing a client from a list without repeated ids leaves no copy of
      that client behind, so a second removal changes nothing. */
  lemma RemoveFirstIdempotent(clients: seq<Client>, client: Client)
    requires Distinct(clients)
    ensures client !in RemoveFirst(clients, client)
    ensures RemoveFirst(RemoveFirst(clients, client), client) == RemoveFirst(clients, client)
  {
  }

  /** Appending a client whose id and connection are new keeps the list
      distinct, and removing it again gives back exactly the old list. */
  lemma AppendThenRemove(clients: seq<Client>, client: Client)
    requires Distinct(clients)
    requires client.cid !in Ids(clients) && client.ws !in Conns(clients)
    ensures Distinct(clients + [client])
    ensures RemoveFirst(clients + [client], client) == clients
  {
    assert forall k :: 0 <= k < |clients| ==> clients[k].cid in Ids(clients);
    assert client !in clients;
    assert FirstIndex(clients + [client], client) == |clients| by {
      assert (clients + [client])[..|clients|] == clients;
    }
    RemoveFirstSplits(clients + [client], client);
    assert (clients + [client])[..|clients|] == clients;
  }
}
