/**
The ExtModule message line: what YATEMessage prints and MessageParser reads
(checker/helpline/message.py), as functions on values.
*/
module Wire {
  import opened Wrappers
  import opened Escape
  import opened Fields

  datatype Kind = Request | Response | Watch | InstallResponse | WatchResponse

  datatype Attr = Attr(key: Text, value: Text)

  /** A message as its `_mid`, `_timestamp`, ... fields hold it. */
  datatype Message = Message(
    mid: Text,
    timestamp: Text,
    name: Option<Text>,
    retvalue: Option<Text>,
    attrs: Option<seq<Attr>>,
    kind: Kind)

  /** The clock text and the random suffix used where a message brings no
      timestamp or no id of its own. */
  datatype Env = Env(now: Text, suffix: Text)

  // ----------------------------------------------------- ordered dictionary

  function Get(attrs: seq<Attr>, key: Text): Option<Text> {
    if attrs == [] then None
    else if attrs[0].key == key then Some(attrs[0].value)
    else Get(attrs[1..], key)
  }

  /** `attrs[key] = value`: a known key keeps its place, a new one goes last. */
  function Put(attrs: seq<Attr>, key: Text, value: Text): seq<Attr> {
    if attrs == [] then [Attr(key, value)]
    else if attrs[0].key == key then [Attr(key, value)] + attrs[1..]
    else [attrs[0]] + Put(attrs[1..], key, value)
  }

  /** What is entered under a key is found under it, and everything else stays as it was. */
  lemma {:induction false} GetAfterPut(attrs: seq<Attr>, key: Text, value: Text, k: Text)
    ensures Get([], k) == None
    ensures Get(Put(attrs, key, value), k) == if k == key then Some(value) else Get(attrs, k)
  {
    var r := Put(attrs, key, value);
    if attrs == [] {
      assert r[1..] == [];
    } else if attrs[0].key == key {
      assert r[1..] == attrs[1..];
    } else {
      assert r[1..] == Put(attrs[1..], key, value);
      GetAfterPut(attrs[1..], key, value, k);
    }
  }

  /** In a dictionary a key is looked up exactly: its value where it stands, None elsewhere. */
  lemma {:induction false} GetExactly(attrs: seq<Attr>, key: Text, value: Text)
    requires DistinctKeys(attrs)
    ensures Get(attrs, key) == Some(value) <==> Attr(key, value) in attrs
    ensures Get(attrs, key) == None <==> forall a <- attrs :: a.key != key
  {
    if attrs != [] {
      GetExactly(attrs[1..], key, value);
      assert attrs == [attrs[0]] + attrs[1..];
      assert attrs[0].key == key ==> !HasKey(attrs[1..], key);
    }
  }

  predicate HasKey(attrs: seq<Attr>, key: Text) {
    exists a <- attrs :: a.key == key
  }

  predicate DistinctKeys(attrs: seq<Attr>) {
    attrs == [] || (!HasKey(attrs[1..], attrs[0].key) && DistinctKeys(attrs[1..]))
  }

  // ------------------------------------------------------------- formatting

  function RequestTag(): Text { Ascii("%%>message") }
  function ResponseTag(): Text { Ascii("%%<message") }
  function InstallTag(): Text { Ascii("%%<install") }
  function WatchTag(): Text { Ascii("%%<watch") }
  function ErrorTag(): Text { Ascii("Error in:") }

  function FlagText(handled: bool): Text {
    if handled then Ascii("true") else Ascii("false")
  }

  /** `escape(s)` with its default extra character. */
  function Esc(s: Text): Text {
    Escaped(s, COLON)
  }

  function AttrField(a: Attr): Text {
    a.key + [EQUALS] + Esc(a.value)
  }

  function AttrsText(attrs: seq<Attr>): Text {
    if attrs == [] then [] else [COLON] + AttrField(attrs[0]) + AttrsText(attrs[1..])
  }

  /** One field, its separator and the rest of the line. */
  function Field(f: Text, rest: Text): Text {
    f + [COLON] + rest
  }

  /** The return value as it is printed: None prints like the empty text. */
  function RetText(m: Message): Text {
    if m.retvalue.Some? then m.retvalue.value else []
  }

  /** A message that can be printed at all: both fields are dereferenced. */
  predicate Printable(m: Message) {
    m.name.Some? && m.attrs.Some?
  }

  function Tail(m: Message): Text
    requires Printable(m)
  {
    Field(Esc(m.name.value), Esc(RetText(m)) + AttrsText(m.attrs.value))
  }

  function FormatMessage(m: Message): Text
    requires Printable(m)
  {
    Field(RequestTag(), Field(m.mid, Field(m.timestamp, Tail(m))))
  }

  function FormatResponse(m: Message, handled: bool): Text
    requires Printable(m)
  {
    Field(ResponseTag(), Field(m.mid, Field(FlagText(handled), Tail(m))))
  }

  // ---------------------------------------------------------------- parsing

  /** `key, value in [x.split("=", 1) for x in values]`, entered into a dictionary. */
  function FromPieces(pieces: seq<Text>, acc: seq<Attr>): Result<seq<Attr>> {
    if pieces == [] then Ok(acc)
    else
      var kv := SplitN(pieces[0], EQUALS, 1);
      if |kv| != 2 then Raise(ValueError)
      else
        var value :- Unescaped(kv[1]);
        FromPieces(pieces[1..], Put(acc, kv[0], value))
  }

  lemma {:induction false} PiecesInTwo(a: seq<Text>, b: seq<Text>, acc: seq<Attr>)
    ensures FromPieces(a + b, acc) ==
      if FromPieces(a, acc).Ok? then FromPieces(b, FromPieces(a, acc).value) else FromPieces(a, acc)
  {
    if a == [] {
      assert a + b == b;
    } else {
      assert (a + b)[1..] == a[1..] + b;
      var kv := SplitN(a[0], EQUALS, 1);
      if |kv| == 2 && Unescaped(kv[1]).Ok? {
        PiecesInTwo(a[1..], b, Put(acc, kv[0], Unescaped(kv[1]).value));
      }
    }
  }

  /** One piece more, `key=value`: its value is what the key now stands for,
      also when the key was there before; without a '=' it is refused. */
  lemma LastPieceCounts(pieces: seq<Text>, key: Text, value: Text, k: Text)
    requires Free(key, EQUALS) && FromPieces(pieces, []).Ok?
    ensures var before, r := FromPieces(pieces, []).value, FromPieces(pieces + [key + [61] + value], []);
      && (r.Ok? <==> Unescaped(value).Ok?)
      && (r.Ok? ==> Get(r.value, k) == if k == key then Some(Unescaped(value).value) else Get(before, k))
    ensures FromPieces(pieces + [key], []) == Raise(ValueError)
  {
    var before, p: Text := FromPieces(pieces, []).value, key + [61] + value;
    PiecesInTwo(pieces, [p], []);
    PiecesInTwo(pieces, [key], []);
    SplitFirst(key, value, EQUALS, 1);
    NoCut(value, EQUALS, 0);
    NoCut(key, EQUALS, 1);
    assert [p][1..] == [] && [key][1..] == [];
    hide Unescaped, SplitN, Put, Get;
    if Unescaped(value).Ok? {
      GetAfterPut(before, key, Unescaped(value).value, k);
    }
  }

  function ParseAttrs(body: Text): Result<seq<Attr>> {
    FromPieces(Split(body, COLON), [])
  }

  /** YATEMessage.__init__: an empty id or timestamp is replaced. */
  function NewMessage(env: Env, mid: Text, timestamp: Text, name: Option<Text>,
                      retvalue: Option<Text>, attrs: Option<seq<Attr>>, kind: Kind): Message
  {
    var ts := if timestamp == [] then env.now else timestamp;
    Message(if mid == [] then ts + env.suffix else mid, ts, name, retvalue, attrs, kind)
  }

  function ParseRequest(rest: Text, env: Env): Result<Message> {
    var v := SplitN(rest, COLON, 4);
    var mid :- Unescaped(v[0]);
    if |v| < 3 then Raise(IndexError)
    else
      var name :- Unescaped(v[2]);
      if |v| == 3 then Ok(NewMessage(env, mid, v[1], Some(name), None, None, Request))
      else
        var ret :- Unescaped(v[3]);
        if |v| == 4 then Ok(NewMessage(env, mid, v[1], Some(name), Some(ret), None, Request))
        else
          var attrs :- ParseAttrs(v[4]);
          Ok(NewMessage(env, mid, v[1], Some(name), Some(ret), Some(attrs), Request))
  }

  function ParseWatch(v: seq<Text>, env: Env): Result<Message>
    requires v != []
  {
    var mid :- Unescaped(v[0]);
    if |v| < 3 then Raise(IndexError)
    else
      var name :- Unescaped(v[2]);
      if |v| < 4 then Raise(IndexError)
      else
        var ret :- Unescaped(v[3]);
        if |v| < 5 then Raise(IndexError)
        else
          var attrs :- ParseAttrs(v[4]);
          Ok(NewMessage(env, mid, [], Some(name), Some(ret), Some(attrs), Watch))
  }

  function ParseResponse(v: seq<Text>, env: Env): Result<Message> {
    if |v| < 5 then Raise(IndexError)
    else
      var attrs :- ParseAttrs(v[4]);
      Ok(NewMessage(env, v[0], [], Some(v[2]), Some(v[3]), Some(attrs), Response))
  }

  function ParseWatchOrResponse(rest: Text, env: Env): Result<Message> {
    var v := SplitN(rest, COLON, 4);
    if v[0] == [] then ParseWatch(v, env) else ParseResponse(v, env)
  }

  /** The acknowledgement of an `install` (field 2) or a `watch` (field 1). */
  function ParseAcknowledgement(rest: Text, field: nat, kind: Kind, env: Env): Result<Message> {
    var v := Split(rest, COLON);
    if |v| <= field then Raise(IndexError)
    else
      var answer :- Unescaped(v[field]);
      if answer == Ascii("ok") || answer == Ascii("true")
      then Ok(NewMessage(env, [], [], None, None, None, kind))
      else Raise(Refused)
  }

  function ParseLine(line: Text, env: Env): Result<Message> {
    var s := RStrip(line);
    if line == [] || ErrorTag() <= s then Raise(Refused)
    else
      var parts := SplitN(s, COLON, 1);
      if |parts| != 2 then Raise(ValueError)
      else if parts[0] == RequestTag() then ParseRequest(parts[1], env)
      else if parts[0] == ResponseTag() then ParseWatchOrResponse(parts[1], env)
      else if parts[0] == InstallTag() then ParseAcknowledgement(parts[1], 2, InstallResponse, env)
      else if parts[0] == WatchTag() then ParseAcknowledgement(parts[1], 1, WatchResponse, env)
      else Raise(Refused)
  }
}
