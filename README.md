# mr-server: a Dafny model of the message-relay server core

The message-relay server accepts websocket connections and admits each one
through a short handshake. It keeps the admitted clients in a bounded list
and relays their chat messages to every connected client. This project
models the connection lifecycle implemented in `mrserver/server.py`:

- **Client list.** `ClientModel` (id, display name, connection) and the
  server's `clients` list. The list grows on admission, shrinks in
  `cleanup_client_info` and is cleared by `close`.
- **Handshake.** `perform_handshake`:
  - It checks the capacity gate.
  - It sends HELLO/ALLOWED or HELLO/DISALLOWED.
  - It reads the peer's HELLO and assigns an id.
  - It appends the new client and announces it with NEW_MEMBER.
- **Fan-out.** `notify_new_connect` and `create_message` build their JSON
  envelope and send the same document to every registered connection.
- **Routing.** `parse_operation` and `FUNCTION_MAP` decode a frame, read
  `op` and `message`, and dispatch CREATE_MESSAGE.
- **Connection handler.** `ws_handler` runs the handshake, then the receive
  loop over the inbound frames, then the `finally` cleanup.

## Module layout

- `wrappers.dfy` (`Wrappers`): `Option` and `Result`. A `Failure` stands for
  a Python exception that propagates.
- `json.dfy` (`Json`): a decoded JSON document and the Python lookups the
  server performs on it:
  - `request["op"]`, with KeyError and TypeError;
  - the dict `json.loads` builds, which holds each key once, at its first
    position, with its last value, and the value `Loaded` that results at
    every depth, which is what `create_message` sends on;
  - `str()` and `repr` of a value, with Python's choice of quotes and
    escapes for strings.
- `clients.dfy` (`Clients`): `ClientModel` as the value `Client`, and
  `list.remove` as `RemoveFirst`.
- `broadcast.dfy` (`Broadcast`): the envelope builders and the fan-out.
  `Broadcast` models `asyncio.wait` over one send per client, including the
  ValueError it raises on an empty list.
- `router.dfy` (`Router`): `FUNCTION_MAP`, `parse_operation` and `Relay`.
  `Relay` is the reference definition of what the receive loop does with a
  sequence of frames.
- `server.dfy` (`Server`):
  - the pure handshake specification `Handshake`;
  - the class `Server`, whose `clients` field its methods update. Each
    method is proved against the specification functions above, and every
    method preserves `Valid()`: no two entries share an id or a connection,
    and, when `max_clients` is non-negative, the list stays within it.
- `scenarios.dfy` (`Scenarios`): concrete walk-throughs with two peers.

Sends are modelled as a returned list of `Send(connection, document)`
records, in the order the code issues them. Connections are abstract
numbers. The peer's behaviour is an input: the handshake reply, and the
frames the receive loop reads.

Points where the code's behaviour is easy to misread:

- The docstring of `parse_operation` (`mrserver/server.py:83`) says errors
  are silently disregarded. The code catches nothing. A text frame raises
  an exception when it:
  - is not JSON;
  - is not an object;
  - lacks `op` or `message`;
  - names an operation missing from `FUNCTION_MAP`.

  The exception ends the receive loop, and the `finally` block removes the
  client (`mrserver/server.py:82-92`, `161-171`). `Relay` returns
  `Raised(error)` in these cases.
- After ALLOWED, the handshake calls `ws.close()` only for a JSON object
  whose `op` is not HELLO (line 121). This happens even when the object
  has no `message`, because `message` is read later, at line 127. A binary
  reply only returns None (line 136). A reply raises out of the handshake
  (lines 116-127) when it:
  - is not JSON;
  - is not an object;
  - lacks `op`;
  - has `op` HELLO and lacks `message`.
- The capacity check is the equality `len(self.clients) == self.max_clients`
  at line 103. The handshake then awaits the peer's reply at line 114
  before appending at line 134.
- Broadcasting to an empty list raises ValueError. This happens in
  `asyncio.wait([])` on Python 3.7 to 3.10. In the sequential model it can
  only happen in `create_message`, and only if the sender is no longer
  registered.

## Model

| member | source | states |
|---|---|---|
| Json.GetLastWins | mrserver/server.py:85-88 | a key is found in a decoded object iff some member carries it, and the value found is that of its last occurrence (json.loads keeps the last duplicate) |
| Json.Get | mrserver/server.py:85-88 | the lookup the server performs on a decoded object; what it answers is stated by GetLastWins and DictHoldsLast |
| Json.IndexReadsDict | mrserver/server.py:87-88 | subscripting an object succeeds iff one of its members carries the key, and then answers the value the built dict holds; otherwise it raises KeyError |
| Json.StoreKeys | mrserver/server.py:85 | storing into a dict keeps an existing key at its position and appends a new key at the end |
| Json.StoreFind | mrserver/server.py:85 | after `d[key] = v`, looking up the key gives `v` and every other key is unaffected |
| Json.DictKeysDistinct | mrserver/server.py:85 | the dict json.loads builds holds each key once |
| Json.DictKeysFirstOccurrence | mrserver/server.py:85 | the dict's keys are the document's keys in the order of their first occurrence, each once |
| Json.Loaded | mrserver/server.py:85 | the Python value json.loads builds from a parse tree: every object, at every depth, becomes the dict of its members |
| Json.LoadedObject | mrserver/server.py:85 | a loaded object answers every key with the loaded value of the key's last occurrence, holds each key once, and keeps the keys in the order of their first occurrence |
| Json.DictHoldsLast | mrserver/server.py:85-88 | for every key the built dict holds the value of the key's last occurrence in the document |
| Json.Str | mrserver/server.py:127 | `str()` of a string is the string itself; None and booleans give `None`, `True`, `False` |
| Json.Repr | mrserver/server.py:127 | `repr` of a decoded value: an object is printed as the dict json.loads builds from it (each key once, at its first position, with its last value), and strings and keys are printed by ReprString |
| Json.ReprString | mrserver/server.py:127 | `repr` of a string is enclosed in one quote character at both ends; it is `"` exactly when the text holds `'` and no `"`, and `'` otherwise |
| Json.ReprStringRoundTrip | mrserver/server.py:127 | reading back the escaped body of a repr'd string gives the original text: escaping of the quote, the backslash, tab, newline, carriage return and control characters loses nothing |
| Json.EscapePlain | mrserver/server.py:127 | printable ASCII text without quotes or backslashes appears verbatim between the quotes |
| Clients.FirstIndex | mrserver/server.py:145 | the index of the first element equal to the client: it holds the client and no earlier element does |
| Clients.RemoveFirst | mrserver/server.py:141-147 | removing an absent client leaves the list unchanged |
| Clients.RemoveFirstSplits | mrserver/server.py:145 | `list.remove` drops exactly the first occurrence: the result is the prefix before it followed by the suffix after it |
| Clients.RemoveFirstShrinks | mrserver/server.py:145 | removal shortens the list by one iff the client is present, and the multiset of clients loses exactly one copy of it |
| Clients.RemoveFirstDistinct | mrserver/server.py:141-147 | removal keeps ids and connections pairwise distinct and introduces no new id or connection |
| Clients.RemoveFirstIdempotent | mrserver/server.py:141-147 | on a duplicate-free list the client is gone after one removal, and a second cleanup is a no-op |
| Clients.AppendThenRemove | mrserver/server.py:134-145 | appending a client with a fresh id and connection keeps the list distinct, and the later cleanup restores the list exactly |
| Broadcast.Envelope | mrserver/server.py:99 | a reader of the envelope recovers `op` and `message` |
| Broadcast.Hello | mrserver/server.py:99-104 | HELLO whose message is ALLOWED or DISALLOWED according to admission |
| Broadcast.IdAssign | mrserver/server.py:132 | ID_ASSIGN whose message is the assigned id |
| Broadcast.ClientInfo | mrserver/server.py:73 | the client object exposes the client's id and name |
| Broadcast.NewMember | mrserver/server.py:58-61 | NEW_MEMBER whose `message.client` carries the new client's id and name |
| Broadcast.NewMessage | mrserver/server.py:70-76 | NEW_MESSAGE with the sender's id and name and the content unchanged |
| Broadcast.Fanout | mrserver/server.py:65 | one send per registered client, in list order, each of the same document to that client's connection |
| Broadcast.NotifyNewConnect | mrserver/server.py:55-65 | fails iff the list is empty; otherwise every registered connection gets NEW_MEMBER about the client |
| Broadcast.CreateMessage | mrserver/server.py:67-80 | fails iff the list is empty; otherwise every registered connection gets the same NEW_MESSAGE |
| Broadcast.FanoutOncePerMember | mrserver/server.py:65 | on a list of distinct connections each registered connection receives exactly one send and no other connection receives any |
| Router.FunctionMap | mrserver/server.py:10 | the routing table: CREATE_MESSAGE is the only operation, handled by create_message |
| Router.Lookup | mrserver/server.py:89 | `FUNCTION_MAP[op]` finds the create_message handler iff op is the string CREATE_MESSAGE; a list or dict raises TypeError (unhashable); any other string, number, boolean or null raises KeyError |
| Router.ParseOperation | mrserver/server.py:82-92 | routing succeeds iff the frame decodes, `op` is CREATE_MESSAGE, `message` is present and someone is registered; it then yields the NEW_MESSAGE fan-out carrying `message` as the value json.loads built (duplicate keys merged); an undecodable frame raises the decode error |
| Router.Relay | mrserver/server.py:165-168 | reference definition of the receive loop over a run of frames; what it guarantees is stated by the Relay lemmas below, and ReceiveLoop is proved equal to it |
| Router.RelaySendsOnlyToMembers | mrserver/server.py:165-168 | every send made by the loop goes to a registered connection |
| Router.RelayIgnoresBinary | mrserver/server.py:167 | dropping the binary frames changes nothing about the loop's sends or exit |
| Router.RelayHalts | mrserver/server.py:161-171 | a frame that raises ends the loop; frames after it are never processed |
| Router.RelayDisconnectsIff | mrserver/server.py:161-169 | the loop ends by disconnection iff every text frame routes without an exception |
| Router.RelayReachesEachMemberOnce | mrserver/server.py:165-168 | after a clean disconnection each registered connection received exactly one send per text frame, and any other connection received none |
| Router.RoutedOncePerMember | mrserver/server.py:82-92 | a routed message reaches each registered connection exactly once |
| Server.ReadGreeting | mrserver/server.py:114-127 | the reply greets iff it is a text JSON object whose `op` is HELLO and that has a `message`; it is a wrong op iff `op` is present and not HELLO; it is not text iff it is a binary frame |
| Server.Handshake | mrserver/server.py:94-139 | DISALLOWED, close and nothing changed when full; otherwise ALLOWED first; admission iff there is room and the reply greets, with the fresh id and `str(message)` as name, appended at the end and announced to the new list; a rejected reply gets only ALLOWED, a close only for a wrong op, an exception for a broken reply |
| Server.HandshakeKeepsBound | mrserver/server.py:103-134 | from within a non-negative bound, with a fresh id and connection, a handshake keeps the list within the bound and distinct |
| Server.Server.constructor | mrserver/server.py:53 | the server starts with an empty client list |
| Server.Server.PerformHandshake | mrserver/server.py:94-139 | the new list and the handshake outcome are those of `Handshake`; the bound and distinctness are preserved |
| Server.Server.Admit | mrserver/server.py:126-139 | the client gets the fresh id and `str(message)`; it is told its id, appended, and announced to the whole new list |
| Server.Server.CleanupClientInfo | mrserver/server.py:141-147 | the list becomes `RemoveFirst` of the old one, the client is no longer in it, and an absent client leaves it unchanged |
| Server.Server.ReceiveLoop | mrserver/server.py:161-171 | the sends and the exit are those of `Relay` over the registry, and on either exit the client is removed |
| Server.Server.WsHandler | mrserver/server.py:157-171 | the handshake outcome is that of `Handshake` on the registry, so an admitted client carries the fresh id, `str(message)` and this connection; a client is admitted iff there is room and the reply greets; an admitted client's loop behaves as `Relay` over the registry including it; the registry ends as it began |
| Server.Server.Close | mrserver/server.py:186-189 | the client list is emptied |
| Scenarios.HelloGreets | mrserver/server.py:114-127 | a HELLO naming someone is read as a greeting with that name |
| Scenarios.AliceAdmitted | mrserver/server.py:94-139 | into an empty server the first peer gets ALLOWED, its id, and NEW_MEMBER about itself |
| Scenarios.BobAdmitted | mrserver/server.py:55-65 | the second peer's NEW_MEMBER reaches both registered peers |
| Scenarios.ThirdTurnedAway | mrserver/server.py:103-107 | at capacity a peer gets only DISALLOWED and is closed, whatever it would reply |
| Scenarios.AliceSaysHi | mrserver/server.py:67-80 | a CREATE_MESSAGE yields NEW_MESSAGE to every registered peer, sender included |
| Scenarios.NotJsonEndsLoop | mrserver/server.py:85 | a frame that is not JSON ends the loop with nothing sent |
| Scenarios.UnknownOpEndsLoop | mrserver/server.py:89 | an operation missing from FUNCTION_MAP raises KeyError and ends the loop |
| Scenarios.BobLeft | mrserver/server.py:141-147 | after a peer's cleanup, messages reach only the peers that remain |
| Scenarios.ApostropheName | mrserver/server.py:127 | a name given as a list holding `it's` prints as `["it's"]`, with double quotes |
| Scenarios.RepeatedKeyForwarded | mrserver/server.py:74-80 | CREATE_MESSAGE whose content repeats a key sends the content with the key once and its last value |
| Scenarios.RepeatedKeyName | mrserver/server.py:127 | a HELLO message object repeating a key prints as Python's dict: the key once, at its first place, with its last value |

## Left out

- Transport and concurrency: the websockets library, the event loop,
  `start`, `run` and `server.close()` are not modelled. The handshake, the
  receive loop with its cleanup, and `close` are separate atomic methods
  that a caller can interleave between connections. Within each method,
  nothing else runs.
  - `ReceiveLoop` runs a client's whole session against one fixed
    registry. The class therefore cannot show another member joining or
    leaving while that client is connected. Only composing the functions
    can show this, as `Scenarios.BobLeft` does with `RemoveFirst` and
    `Relay`.
  - The model therefore does not capture the race between the capacity
    check at line 103 and the append at line 134. Two handshakes that
    both await `ws.recv()` can both pass the check and push the list past
    `max_clients`. While the list stays longer than `max_clients`, the
    equality check admits everyone.
  - It also does not capture a client leaving while a broadcast to it is
    in flight.
- Router.Relay: the loop's `Disconnected` exit stands for every way the
  peer ends the connection. On a clean close the `async for` at line 165
  simply ends. On an abnormal close, websockets raises ConnectionClosedError
  out of the `async for`. The cleanup in the `finally` block still runs,
  but the exception propagates. The model ends such a loop with
  `Disconnected`, and does not model that exception.
- The concurrency of `asyncio.wait` is not modelled. Its sends appear in
  list order, and the failure of an individual send (a closed peer) is not
  modelled.
- `ws.send` and `ws.close` raising because the peer went away are not
  modelled, except on the first `ws.recv()` of the handshake (`PeerClosed`).
- `uuid.uuid4().hex` becomes the parameter `freshId`. It is required to
  differ from every registered id, and its format is not modelled.
- Python object identity: `list.remove` compares `ClientModel` objects by
  identity. The model compares clients as values, which is the same thing
  while ids and connections are distinct (`Valid()`).
- `json.dumps` and `json.loads` are not modelled as text:
  - frames carry the decoded document, or None for text that is not JSON;
  - sends carry the document rather than its serialisation;
  - floating-point numbers are not modelled.
- Json.Str: `str()` is stated exactly only for strings, None and booleans.
  For numbers, lists and objects it is `Repr`.
- Json.Repr: non-ASCII characters are always printed as they are. Python
  escapes the non-ASCII characters it does not consider printable, as
  `\xhh`, `\uhhhh` or `\Uhhhhhhhh`. The Unicode printability table is not
  modelled. ASCII strings are quoted and escaped as Python does.
- Server.HandshakeKeepsBound: the bound holds only for a non-negative
  `max_clients`. With a negative value the equality gate never triggers,
  so the code admits everyone, and the model does the same.
- Server.Server.WsHandler: when the handshake raises, the model returns
  the raised error, and the websockets library would then close the
  connection. That closing is not modelled.
- On Python 3.11 and later, `asyncio.wait` rejects bare coroutines with
  TypeError, so every broadcast would fail. The model follows the
  behaviour of Python 3.7 to 3.10.
- Logging, colorama, the log-format setup, `port` and `loop` have no state
  the core reads. `mrserver/__init__.py` and the command-line launcher are
  not part of this model.
