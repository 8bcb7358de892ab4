/** Walk-throughs on a server with room for two clients, stated on the
    model's functions with concrete peers. */
module Scenarios {
  import opened Wrappers
  import opened Json
  import opened Clients
  import opened Broadcast
  import opened Router
  import opened Server

  const alice := Client("a1", "alice", 1)
  const bob := Client("b2", "bob", 2)

  function HelloFrom(name: string): Reply {
    Received(Text(Some(Envelope("HELLO", JStr(name)))))
  }

  /** A HELLO naming `name` is read as a greeting with that name. */
  lemma HelloGreets(name: string)
    ensures ReadGreeting(HelloFrom(name)) == Greets(JStr(name))
  {
  }

  /** Into an empty server with room for two, Alice is admitted: she gets
      ALLOWED, her id, and NEW_MEMBER about herself. */
  lemma AliceAdmitted()
    ensures Handshake([], 2, 1, HelloFrom("alice"), "a1")
            == Handshaken([alice], HandshakeResult(Some(alice),
                 [Send(1, Hello(true)), Send(1, IdAssign("a1")), Send(1, NewMember(alice))], false, None))
  {
    HelloGreets("alice");
  }

  /** Bob is admitted next, and NEW_MEMBER about Bob reaches Alice and Bob. */
  lemma BobAdmitted()
    ensures Handshake([alice], 2, 2, HelloFrom("bob"), "b2")
            == Handshaken([alice, bob], HandshakeResult(Some(bob),
                 [Send(2, Hello(true)), Send(2, IdAssign("b2")), Send(1, NewMember(bob)), Send(2, NewMember(bob))], false, None))
  {
    HelloGreets("bob");
  }

  /** A third connection gets DISALLOWED and is closed. */
  lemma ThirdTurnedAway(reply: Reply)
    ensures Handshake([alice, bob], 2, 3, reply, "c3")
            == Handshaken([alice, bob], HandshakeResult(None, [Send(3, Hello(false))], true, None))
  {
  }

  function Says(op: string, message: Json): Frame {
    Text(Some(Envelope(op, message)))
  }

  /** Alice sends "hi": Alice and Bob both get NEW_MESSAGE with Alice's id and
      the content unchanged, and the loop runs on until she disconnects. */
  lemma AliceSaysHi()
    ensures Relay([alice, bob], alice, [Says("CREATE_MESSAGE", JStr("hi"))])
            == Relayed([Send(1, NewMessage(alice, JStr("hi"))), Send(2, NewMessage(alice, JStr("hi")))], Disconnected)
  {
    var frames := [Says("CREATE_MESSAGE", JStr("hi"))];
    assert frames[1..] == [];
  }

  /** A payload that is not JSON raises, ending Alice's loop: nothing is
      broadcast and later frames are never read. */
  lemma NotJsonEndsLoop(later: seq<Frame>)
    ensures Relay([alice, bob], alice, [Text(None)] + later) == Relayed([], Raised(DecodeError))
  {
  }

  /** An operation missing from FUNCTION_MAP raises KeyError, ending the loop. */
  lemma UnknownOpEndsLoop(later: seq<Frame>)
    ensures Relay([alice, bob], alice, [Says("PING", JNull)] + later) == Relayed([], Raised(KeyError))
  {
  }

  /** Once Bob's handler has cleaned up, Alice's message reaches only Alice. */
  lemma BobLeft()
    ensures RemoveFirst([alice, bob], bob) == [alice]
    ensures Relay([alice], alice, [Says("CREATE_MESSAGE", JStr("hi"))])
            == Relayed([Send(1, NewMessage(alice, JStr("hi")))], Disconnected)
  {
    var frames := [Says("CREATE_MESSAGE", JStr("hi"))];
    assert frames[1..] == [];
    assert [alice, bob][1..] == [bob];
  }

  /** A peer whose HELLO message is an object repeating a key is named
      after the dict Python builds: the key once, at its first place, with
      its last value. */
  lemma RepeatedKeyName()
    ensures Str(JObj([("a", JInt(1)), ("b", JInt(2)), ("a", JInt(3))])) == "{'a': 3, 'b': 2}"
  {
    var fields := [("a", JInt(1)), ("b", JInt(2)), ("a", JInt(3))];
    RepeatedKeyMerged();
    SingleLetterKeys();
    assert Decimal(3) == "3" && Decimal(2) == "2";
    var value := JObj(fields);
    assert ReprFields(value, [("b", JInt(2))]) == "'b': 2";
    assert ReprFields(value, [("a", JInt(3)), ("b", JInt(2))]) == "'a': 3, 'b': 2";
    assert Repr(value) == "{" + ReprFields(value, Dict(fields)) + "}";
    assert Str(value) == Repr(value);
  }

  /** The dict built from the repeated-key object. */
  lemma RepeatedKeyMerged()
    ensures Dict([("a", JInt(1)), ("b", JInt(2)), ("a", JInt(3))]) == [("a", JInt(3)), ("b", JInt(2))]
  {
    var fields := [("a", JInt(1)), ("b", JInt(2)), ("a", JInt(3))];
    assert fields[..2][..1] == [("a", JInt(1))] && [("a", JInt(1))][..0] == [];
    assert Dict([("a", JInt(1))]) == [("a", JInt(1))];
    assert Dict(fields[..2]) == [("a", JInt(1)), ("b", JInt(2))];
  }

  lemma SingleLetterKeys()
    ensures ReprString("a") == "'a'" && ReprString("b") == "'b'"
  {
    assert EscapeAll("a", '\'') == "a" && EscapeAll("b", '\'') == "b";
  }

  /** A name given as a list holding a string with an apostrophe prints
      with double quotes, as Python's repr chooses. */
  lemma ApostropheName()
    ensures Str(JArr([JStr("it's")])) == "[\"it's\"]"
  {
    var text := "it's";
    ApostropheQuoted();
    assert Repr(JStr(text)) == ReprString(text);
    assert ReprItems(JArr([JStr(text)]), [JStr(text)]) == Repr(JStr(text));
    assert Repr(JArr([JStr(text)])) == "[" + ReprString(text) + "]";
  }

  /** A string holding an apostrophe and no double quote is put in double
      quotes. */
  lemma ApostropheQuoted()
    ensures ReprString("it's") == "\"it's\""
  {
    ApostropheKept();
    assert "it's"[2] == '\'';
    assert forall k :: 0 <= k < 4 ==> "it's"[k] != '"';
  }

  /** Inside double quotes the apostrophe needs no escape. */
  lemma ApostropheKept()
    ensures EscapeAll("it's", '"') == "it's"
  {
    var text := "it's";
    assert text[1..] == "t's" && text[1..][1..] == "'s" && text[1..][1..][1..] == "s";
    assert EscapeChar('\'', '"') == "'";
    assert EscapeAll("s", '"') == "s" by { assert "s"[1..] == ""; }
    assert EscapeAll("'s", '"') == "'s";
    assert EscapeAll("t's", '"') == "t's";
  }

  /** Content that repeats a key is forwarded as the dict Python built: the
      key once, with its last value. */
  lemma RepeatedKeyForwarded()
    ensures ParseOperation([alice], alice, Some(Envelope("CREATE_MESSAGE", JObj([("a", JInt(1)), ("a", JInt(2))]))))
            == Success([Send(1, NewMessage(alice, JObj([("a", JInt(2))])))])
  {
    var content := JObj([("a", JInt(1)), ("a", JInt(2))]);
    var frame := Envelope("CREATE_MESSAGE", content);
    RepeatedKeyLoaded();
    assert Path(frame, ["message"]) == Some(content);
    var merged := NewMessage(alice, JObj([("a", JInt(2))]));
    assert Path(frame, ["op"]) == Some(JStr("CREATE_MESSAGE"));
    var r := ParseOperation([alice], alice, Some(frame));
    assert r.Success?;
    assert r.value == Fanout([alice], merged);
    assert Fanout([alice], merged) == [Send(1, merged)];
  }

  lemma RepeatedKeyLoaded()
    ensures Loaded(JObj([("a", JInt(1)), ("a", JInt(2))])) == JObj([("a", JInt(2))])
  {
    var content := JObj([("a", JInt(1)), ("a", JInt(2))]);
    var fields := [("a", JInt(1)), ("a", JInt(2))];
    assert fields[..1] == [("a", JInt(1))] && fields[..1][..0] == [];
    assert LoadedFields(content, fields) == fields;
    assert Dict(fields[..1]) == [("a", JInt(1))];
    assert Dict(fields) == [("a", JInt(2))];
  }
}
