/** Decoded JSON documents, as `json.loads` hands them to the server, and the
    two Python operations the server applies to them: subscripting a decoded
    object with a key, and `str()`. */
module Json {
  import opened Wrappers

  /** A decoded JSON value. An object keeps its members in document order,
      duplicates included; floating-point numbers are not modelled. */
  datatype Json =
    | JNull
    | JBool(b: bool)
    | JInt(i: int)
    | JStr(s: string)
    | JArr(items: seq<Json>)
    | JObj(fields: seq<(string, Json)>)

  /** The exceptions that can escape the server's handlers. */
  datatype Error =
    | DecodeError       // json.JSONDecodeError: the text is not JSON
    | KeyError          // a dict has no such key
    | TypeError         // subscripting a value that is not a dict, or hashing a list or dict
    | ValueError        // asyncio.wait called with an empty list of sends
    | ConnectionClosed  // the peer went away while the server waited in recv()

  /** The value a Python dict built by json.loads holds for `key`. */
  function Get(fields: seq<(string, Json)>, key: string): Option<Json> {
    if |fields| == 0 then None
    else if fields[|fields| - 1].0 == key then Some(fields[|fields| - 1].1)
    else Get(fields[..|fields| - 1], key)
  }

  /** A key is found exactly when some member carries it, and when the
      document repeats a key the last occurrence wins. */
  lemma {:induction false} GetLastWins(fields: seq<(string, Json)>, key: string)
    ensures Get(fields, key).Some? <==> exists i :: 0 <= i < |fields| && fields[i].0 == key
    ensures Get(fields, key).Some? ==>
              exists i :: 0 <= i < |fields| && fields[i] == (key, Get(fields, key).value)
                          && forall j :: i < j < |fields| ==> fields[j].0 != key
  {
    if |fields| > 0 && fields[|fields| - 1].0 != key {
      var init := fields[..|fields| - 1];
      GetLastWins(init, key);
      assert forall i :: 0 <= i < |init| ==> init[i] == fields[i];
    }
  }

  /** Python's `value[key]` on a decoded document: a dict answers with its
      entry or raises KeyError; every other JSON value raises TypeError. */
  function Index(value: Json, key: string): Result<Json, Error> {
    match value
    case JObj(fields) =>
      (match Get(fields, key)
       case Some(v) => Success(v)
       case None => Failure(KeyError))
    case _ => Failure(TypeError)
  }

  /** Subscripting a decoded object succeeds exactly when one of its members
      carries the key, and answers what the dict built by `json.loads` holds
      for it. */
  lemma IndexReadsDict(value: Json, key: string)
    requires value.JObj?
    ensures Index(value, key).Success? <==> exists i :: 0 <= i < |value.fields| && value.fields[i].0 == key
    ensures Index(value, key).Success? ==> Find(Dict(value.fields), key) == Some(Index(value, key).value)
    ensures Index(value, key).Failure? ==> Find(Dict(value.fields), key) == None && Index(value, key).error == KeyError
  {
    GetLastWins(value.fields, key);
    DictHoldsLast(value.fields, key);
  }

  /** Follows a chain of keys through nested objects; None when a key is
      missing or a step is not an object. Used to state what a built payload
      carries. */
  function Path(value: Json, keys: seq<string>): Option<Json>
    decreases |keys|
  {
    if keys == [] then Some(value)
    else match Index(value, keys[0])
      case Success(v) => Path(v, keys[1..])
      case Failure(_) => None
  }

  /** True if Python can hash the value (lists and dicts cannot be dict keys). */
  predicate Hashable(value: Json) {
    !value.JArr? && !value.JObj?
  }

  /** `d[key] = v` on the entries of a dict: an existing key keeps its
      position and takes the new value, a new key goes at the end. */
  function Store(entries: seq<(string, Json)>, key: string, v: Json): seq<(string, Json)> {
    if entries == [] then [(key, v)]
    else if entries[0].0 == key then [(key, v)] + entries[1..]
    else [entries[0]] + Store(entries[1..], key, v)
  }

  /** The dict `json.loads` builds from an object's members, storing them
      in document order. */
  function Dict(fields: seq<(string, Json)>): seq<(string, Json)>
    decreases |fields|
  {
    if fields == [] then []
    else Store(Dict(fields[..|fields| - 1]), fields[|fields| - 1].0, fields[|fields| - 1].1)
  }

  /** The keys of a dict's entries, in order. */
  function KeySeq(entries: seq<(string, Json)>): seq<string> {
    if entries == [] then [] else [entries[0].0] + KeySeq(entries[1..])
  }

  ghost predicate NoDuplicates(keys: seq<string>) {
    forall i, j :: 0 <= i < j < |keys| ==> keys[i] != keys[j]
  }

  /** Lookup by key in a dict's entries, front to back. */
  function Find(entries: seq<(string, Json)>, key: string): Option<Json> {
    if entries == [] then None
    else if entries[0].0 == key then Some(entries[0].1)
    else Find(entries[1..], key)
  }

  /** Storing an existing key leaves the key order alone; storing a new key
      appends it. */
  lemma {:induction false} StoreKeys(entries: seq<(string, Json)>, key: string, v: Json)
    ensures KeySeq(Store(entries, key, v)) == if key in KeySeq(entries) then KeySeq(entries) else KeySeq(entries) + [key]
  {
    if entries != [] && entries[0].0 != key {
      StoreKeys(entries[1..], key, v);
      assert KeySeq(entries) == [entries[0].0] + KeySeq(entries[1..]);
      assert key in KeySeq(entries) <==> key in KeySeq(entries[1..]);
      assert [entries[0].0] + (KeySeq(entries[1..]) + [key]) == KeySeq(entries) + [key];
    }
  }

  /** After `d[key] = v`, looking `key` up gives `v` and every other key is
      unaffected. */
  lemma {:induction false} StoreFind(entries: seq<(string, Json)>, key: string, v: Json, probe: string)
    ensures Find(Store(entries, key, v), probe) == if probe == key then Some(v) else Find(entries, probe)
  {
    if entries != [] && entries[0].0 != key {
      StoreFind(entries[1..], key, v, probe);
    }
  }

  /** Every entry of the dict is one of the object's members. */
  lemma {:induction false} DictMembers(fields: seq<(string, Json)>)
    ensures forall k :: 0 <= k < |Dict(fields)| ==> Dict(fields)[k] in fields
  {
    if fields != [] {
      var init := fields[..|fields| - 1];
      var last := fields[|fields| - 1];
      DictMembers(init);
      StoreMembers(Dict(init), last.0, last.1);
      forall k | 0 <= k < |Dict(fields)| ensures Dict(fields)[k] in fields {
        if Dict(fields)[k] != last {
          assert Dict(fields)[k] in init;
        }
      }
    }
  }

  lemma {:induction false} StoreMembers(entries: seq<(string, Json)>, key: string, v: Json)
    ensures forall k :: 0 <= k < |Store(entries, key, v)| ==> Store(entries, key, v)[k] in entries || Store(entries, key, v)[k] == (key, v)
  {
    if entries != [] && entries[0].0 != key {
      StoreMembers(entries[1..], key, v);
      var r := Store(entries, key, v);
      forall k | 0 <= k < |r| ensures r[k] in entries || r[k] == (key, v) {
        if k > 0 {
          assert r[k] == Store(entries[1..], key, v)[k - 1];
        }
      }
    }
  }

  /** The dict holds each key once (and, by StoreKeys, at the position of
      its first occurrence). */
  lemma {:induction false} DictKeysDistinct(fields: seq<(string, Json)>)
    ensures NoDuplicates(KeySeq(Dict(fields)))
  {
    if fields != [] {
      var init := fields[..|fields| - 1];
      var last := fields[|fields| - 1];
      DictKeysDistinct(init);
      StoreKeys(Dict(init), last.0, last.1);
    }
  }

  /** For every key the dict holds the value of the key's last occurrence,
      which is what `Get` answers for `request[key]`. */
  lemma {:induction false} DictHoldsLast(fields: seq<(string, Json)>, key: string)
    ensures Find(Dict(fields), key) == Get(fields, key)
  {
    if fields != [] {
      var init := fields[..|fields| - 1];
      var last := fields[|fields| - 1];
      DictHoldsLast(init, key);
      StoreFind(Dict(init), last.0, last.1, key);
    }
  }

  /** The keys of `keys` in the order they first appear, each once, leaving
      out those in `seen`. */
  function Firsts(keys: seq<string>, seen: set<string>): seq<string> {
    if keys == [] then []
    else if keys[0] in seen then Firsts(keys[1..], seen)
    else [keys[0]] + Firsts(keys[1..], seen + {keys[0]})
  }

  lemma {:induction false} FirstsMembers(keys: seq<string>, seen: set<string>, k: string)
    ensures k in Firsts(keys, seen) <==> k in keys && k !in seen
  {
    if keys != [] {
      FirstsMembers(keys[1..], seen, k);
      FirstsMembers(keys[1..], seen + {keys[0]}, k);
    }
  }

  lemma {:induction false} FirstsSnoc(keys: seq<string>, seen: set<string>, k: string)
    ensures Firsts(keys + [k], seen) == Firsts(keys, seen) + (if k in seen || k in keys then [] else [k])
  {
    if keys == [] {
      assert ([k])[1..] == [];
    } else {
      assert (keys + [k])[0] == keys[0] && (keys + [k])[1..] == keys[1..] + [k];
      if keys[0] in seen {
        FirstsSnoc(keys[1..], seen, k);
      } else {
        FirstsSnoc(keys[1..], seen + {keys[0]}, k);
      }
    }
  }

  lemma {:induction false} KeySeqSnoc(entries: seq<(string, Json)>, last: (string, Json))
    ensures KeySeq(entries + [last]) == KeySeq(entries) + [last.0]
  {
    if entries == [] {
      assert ([last])[1..] == [];
    } else {
      assert (entries + [last])[1..] == entries[1..] + [last];
      KeySeqSnoc(entries[1..], last);
    }
  }

  /** The dict's keys are the document's keys in the order of their first
      occurrence, each once. */
  lemma {:induction false} DictKeysFirstOccurrence(fields: seq<(string, Json)>)
    ensures KeySeq(Dict(fields)) == Firsts(KeySeq(fields), {})
  {
    if fields != [] {
      var init := fields[..|fields| - 1];
      var last := fields[|fields| - 1];
      assert fields == init + [last];
      DictKeysFirstOccurrence(init);
      StoreKeys(Dict(init), last.0, last.1);
      KeySeqSnoc(init, last);
      FirstsSnoc(KeySeq(init), {}, last.0);
      FirstsMembers(KeySeq(init), {}, last.0);
    }
  }

  /** The Python value `json.loads` builds from a parse tree: every object
      becomes the dict of its members, at every depth. */
  function Loaded(value: Json): Json
    decreases value, 1
  {
    match value
    case JArr(items) => JArr(LoadedItems(value, items))
    case JObj(fields) => JObj(Dict(LoadedFields(value, fields)))
    case _ => value
  }

  function LoadedItems(ghost parent: Json, items: seq<Json>): seq<Json>
    requires forall k :: 0 <= k < |items| ==> items[k] < parent
    decreases parent, 0, |items|
  {
    if items == [] then [] else [Loaded(items[0])] + LoadedItems(parent, items[1..])
  }

  function LoadedFields(ghost parent: Json, fields: seq<(string, Json)>): seq<(string, Json)>
    requires forall k :: 0 <= k < |fields| ==> fields[k].1 < parent
    decreases parent, 0, |fields|
  {
    if fields == [] then []
    else LoadedFields(parent, fields[..|fields| - 1]) + [(fields[|fields| - 1].0, Loaded(fields[|fields| - 1].1))]
  }

  lemma {:induction false} LoadedFieldsGet(parent: Json, fields: seq<(string, Json)>, key: string)
    requires forall k :: 0 <= k < |fields| ==> fields[k].1 < parent
    ensures Get(LoadedFields(parent, fields), key) == if Get(fields, key).Some? then Some(Loaded(Get(fields, key).value)) else None
  {
    if fields != [] {
      LoadedFieldsGet(parent, fields[..|fields| - 1], key);
    }
  }

  /** Reading a key of the loaded object gives the loaded value of the
      key's last occurrence in the document, and the loaded object holds
      each key once, where it first appeared. */
  lemma LoadedObject(value: Json, key: string)
    requires value.JObj?
    ensures Loaded(value).JObj?
    ensures Find(Loaded(value).fields, key) == if Get(value.fields, key).Some? then Some(Loaded(Get(value.fields, key).value)) else None
    ensures NoDuplicates(KeySeq(Loaded(value).fields))
    ensures KeySeq(Loaded(value).fields) == Firsts(KeySeq(value.fields), {})
  {
    var lf := LoadedFields(value, value.fields);
    DictHoldsLast(lf, key);
    LoadedFieldsGet(value, value.fields, key);
    DictKeysDistinct(lf);
    DictKeysFirstOccurrence(lf);
    LoadedFieldsKeys(value, value.fields);
  }

  lemma {:induction false} LoadedFieldsKeys(parent: Json, fields: seq<(string, Json)>)
    requires forall k :: 0 <= k < |fields| ==> fields[k].1 < parent
    ensures KeySeq(LoadedFields(parent, fields)) == KeySeq(fields)
  {
    if fields != [] {
      var init := fields[..|fields| - 1];
      var last := fields[|fields| - 1];
      assert fields == init + [last];
      LoadedFieldsKeys(parent, init);
      KeySeqSnoc(LoadedFields(parent, init), (last.0, Loaded(last.1)));
      KeySeqSnoc(init, last);
    }
  }

  /** Python's `str(value)`: a string is itself, everything else its repr. */
  function Str(value: Json): (r: string)
    ensures value.JStr? ==> r == value.s
    ensures value.JNull? ==> r == "None"
    ensures value.JBool? ==> r == (if value.b then "True" else "False")
  {
    if value.JStr? then value.s else Repr(value)
  }

  /** Python's `repr` of a decoded value. An object prints as the dict
      `json.loads` builds from it; strings, keys included, print as
      `ReprString` has it. */
  function Repr(value: Json): string
    decreases value, 1
  {
    match value
    case JNull => "None"
    case JBool(b) => if b then "True" else "False"
    case JInt(i) => Decimal(i)
    case JStr(s) => ReprString(s)
    case JArr(items) => "[" + ReprItems(value, items) + "]"
    case JObj(fields) =>
      DictMembers(fields);
      "{" + ReprFields(value, Dict(fields)) + "}"
  }

  function ReprItems(ghost parent: Json, items: seq<Json>): string
    requires forall k :: 0 <= k < |items| ==> items[k] < parent
    decreases parent, 0, |items|
  {
    if items == [] then ""
    else if |items| == 1 then Repr(items[0])
    else Repr(items[0]) + ", " + ReprItems(parent, items[1..])
  }

  function ReprFields(ghost parent: Json, fields: seq<(string, Json)>): string
    requires forall k :: 0 <= k < |fields| ==> fields[k].1 < parent
    decreases parent, 0, |fields|
  {
    if fields == [] then ""
    else
      var entry := ReprString(fields[0].0) + ": " + Repr(fields[0].1);
      if |fields| == 1 then entry else entry + ", " + ReprFields(parent, fields[1..])
  }

  /** Python's `repr` of a string: double quotes when the text holds a
      single quote and no double quote, single quotes otherwise, and the
      body escaped by `EscapeAll`. */
  function ReprString(s: string): (r: string)
    ensures |r| >= 2 && r[0] == r[|r| - 1]
    ensures r[0] == (if '\'' in s && '"' !in s then '"' else '\'')
  {
    var q := if '\'' in s && '"' !in s then '"' else '\'';
    [q] + EscapeAll(s, q) + [q]
  }

  /** One character of a repr'd string quoted with `q`: the quote and the
      backslash are escaped, tab, newline and carriage return get their
      letter, any other ASCII control character becomes `\xhh`. */
  function EscapeChar(c: char, q: char): string {
    if c == q || c == '\\' then ['\\', c]
    else if c == '\t' then "\\t"
    else if c == '\n' then "\\n"
    else if c == '\r' then "\\r"
    else if c < ' ' || c as int == 0x7f then ['\\', 'x', HexDigit(c as int / 16), HexDigit(c as int % 16)]
    else [c]
  }

  function EscapeAll(s: string, q: char): string {
    if s == [] then [] else EscapeChar(s[0], q) + EscapeAll(s[1..], q)
  }

  function HexDigit(n: nat): char
    requires n < 16
  {
    if n < 10 then ('0' as int + n) as char else ('a' as int + n - 10) as char
  }

  function HexValue(c: char): int {
    if '0' <= c <= '9' then c as int - '0' as int
    else if 'a' <= c <= 'f' then c as int - 'a' as int + 10
    else -1
  }

  /** Reads an escaped string body back: the inverse of `EscapeAll`. */
  function Unescape(t: string): string
    decreases |t|
  {
    if t == [] then []
    else if t[0] == '\\' && |t| >= 4 && t[1] == 'x' && 0 <= HexValue(t[2]) && 0 <= HexValue(t[3]) then
      [(16 * HexValue(t[2]) + HexValue(t[3])) as char] + Unescape(t[4..])
    else if t[0] == '\\' && |t| >= 2 then [Unescaped(t[1])] + Unescape(t[2..])
    else [t[0]] + Unescape(t[1..])
  }

  function Unescaped(c: char): char {
    if c == 't' then '\t' else if c == 'n' then '\n' else if c == 'r' then '\r' else c
  }

  lemma UnescapeStep(c: char, q: char, rest: string)
    requires q == '\'' || q == '"'
    ensures Unescape(EscapeChar(c, q) + rest) == [c] + Unescape(rest)
  {
    var t := EscapeChar(c, q) + rest;
    if c == q || c == '\\' {
      assert t[2..] == rest;
    } else if c == '\t' || c == '\n' || c == '\r' {
      assert t[2..] == rest;
    } else if c < ' ' || c as int == 0x7f {
      var v := c as int;
      assert HexValue(HexDigit(v / 16)) == v / 16;
      assert HexValue(HexDigit(v % 16)) == v % 16;
      assert t[4..] == rest;
    } else {
      assert t[1..] == rest;
    }
  }

  /** A repr'd string reads back as the original text: escaping loses
      nothing, whichever quote was chosen. */
  lemma {:induction false} ReprStringRoundTrip(s: string)
    ensures var r := ReprString(s); Unescape(r[1..|r| - 1]) == s
  {
    var r := ReprString(s);
    assert r[1..|r| - 1] == EscapeAll(s, r[0]);
    EscapeRoundTrip(s, r[0]);
  }

  lemma {:induction false} EscapeRoundTrip(s: string, q: char)
    requires q == '\'' || q == '"'
    ensures Unescape(EscapeAll(s, q)) == s
  {
    if s != [] {
      EscapeRoundTrip(s[1..], q);
      UnescapeStep(s[0], q, EscapeAll(s[1..], q));
    }
  }

  /** Printable ASCII text without quotes or backslashes is printed
      verbatim between the quotes. */
  lemma {:induction false} EscapePlain(s: string, q: char)
    requires q == '\'' || q == '"'
    requires forall k :: 0 <= k < |s| ==> s[k] != '\'' && s[k] != '"' && s[k] != '\\' && ' ' <= s[k] && s[k] as int < 0x7f
    ensures EscapeAll(s, q) == s
  {
    if s != [] {
      EscapePlain(s[1..], q);
      assert EscapeChar(s[0], q) == [s[0]];
    }
  }

  /** Decimal notation of an integer, as Python prints it. */
  function Decimal(i: int): string {
    if i < 0 then "-" + Digits(-i) else Digits(i)
  }

  function Digits(n: nat): string
    decreases n
  {
    if n < 10 then ["0123456789"[n]] else Digits(n / 10) + ["0123456789"[n % 10]]
  }
}
