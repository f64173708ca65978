/**
What survives a trip through the message line: printing then parsing a
request, and answering an incoming line.
*/
module WireRoundTrips {
  import opened Wrappers
  import opened Escape
  import opened Fields
  import opened Wire

  // -------------------------------------------------------- the attributes

  predicate PlainKey(k: Text) {
    Free(k, COLON) && Free(k, EQUALS)
  }

  predicate PlainKeys(attrs: seq<Attr>) {
    forall a <- attrs :: PlainKey(a.key)
  }

  function Pieces(attrs: seq<Attr>): (ps: seq<Text>)
    ensures |ps| == |attrs|
  {
    if attrs == [] then [] else [AttrField(attrs[0])] + Pieces(attrs[1..])
  }

  lemma {:induction false} AttrsTextIsJoin(attrs: seq<Attr>)
    requires attrs != []
    ensures AttrsText(attrs) == [COLON] + Join(Pieces(attrs), COLON)
  {
    var ps := Pieces(attrs);
    if |attrs| == 1 {
      assert AttrsText(attrs[1..]) == [];
      assert [COLON] + AttrField(attrs[0]) + [] == [COLON] + AttrField(attrs[0]);
    } else {
      AttrsTextIsJoin(attrs[1..]);
      assert ps[1..] == Pieces(attrs[1..]);
      var j := Join(Pieces(attrs[1..]), COLON);
      assert [COLON] + AttrField(attrs[0]) + ([COLON] + j) == [COLON] + (AttrField(attrs[0]) + [COLON] + j);
    }
  }

  lemma EscIsFree(s: Text)
    ensures Free(Esc(s), COLON)
    ensures Unescaped(Esc(s)) == Ok(s)
  {
    EscapedHidesExtra(s, COLON);
    UnescapeUndoesEscape(s, COLON);
  }

  lemma AttrFieldSplits(a: Attr)
    requires PlainKey(a.key)
    ensures SplitN(AttrField(a), EQUALS, 1) == [a.key, Esc(a.value)]
    ensures Free(AttrField(a), COLON)
  {
    SplitFirst(a.key, Esc(a.value), EQUALS, 1);
    NoCut(Esc(a.value), EQUALS, 0);
    EscIsFree(a.value);
  }

  lemma {:induction false} PutNew(attrs: seq<Attr>, key: Text, value: Text)
    requires !HasKey(attrs, key)
    ensures Put(attrs, key, value) == attrs + [Attr(key, value)]
  {
    if attrs != [] {
      assert attrs[0].key != key;
      assert forall a <- attrs[1..] :: a in attrs;
      PutNew(attrs[1..], key, value);
    }
  }

  predicate NoSharedKeys(xs: seq<Attr>, ys: seq<Attr>) {
    forall a <- xs, b <- ys :: a.key != b.key
  }

  /** The parser's dictionary is the printed attribute list, order included. */
  lemma {:induction false} PiecesParse(attrs: seq<Attr>, acc: seq<Attr>)
    requires PlainKeys(attrs) && DistinctKeys(attrs) && NoSharedKeys(acc, attrs)
    ensures FromPieces(Pieces(attrs), acc) == Ok(acc + attrs)
  {
    hide FromPieces, Pieces, AttrField, NoSharedKeys, DistinctKeys, PlainKeys, HasKey, PlainKey;
    if attrs == [] {
      NoPieces(acc);
      assert acc + attrs == acc;
    } else {
      var a, rest := attrs[0], attrs[1..];
      KeysOfFirstAndRest(attrs, acc);
      PiecesParse(rest, acc + [a]);
      FirstPiece(attrs, acc);
      assert [a] + rest == attrs;
      assert acc + [a] + rest == acc + ([a] + rest);
    }
  }

  lemma NoPieces(acc: seq<Attr>)
    ensures FromPieces(Pieces([]), acc) == Ok(acc)
  {
  }

  lemma FirstPiece(attrs: seq<Attr>, acc: seq<Attr>)
    requires attrs != [] && PlainKey(attrs[0].key) && !HasKey(acc, attrs[0].key)
    ensures FromPieces(Pieces(attrs), acc) == FromPieces(Pieces(attrs[1..]), acc + [attrs[0]])
  {
    var a, ps := attrs[0], Pieces(attrs[1..]);
    AttrFieldSplits(a);
    EscIsFree(a.value);
    PutNew(acc, a.key, a.value);
    hide AttrField, SplitN, Put, Unescaped, Esc, HasKey, PlainKey;
    assert ([AttrField(a)] + ps)[1..] == ps;
  }

  lemma KeysOfFirstAndRest(attrs: seq<Attr>, acc: seq<Attr>)
    requires attrs != []
    requires PlainKeys(attrs) && DistinctKeys(attrs) && NoSharedKeys(acc, attrs)
    ensures PlainKey(attrs[0].key) && !HasKey(acc, attrs[0].key)
    ensures PlainKeys(attrs[1..]) && DistinctKeys(attrs[1..])
    ensures NoSharedKeys(acc + [attrs[0]], attrs[1..])
  {
    assert attrs[0] in attrs && forall b <- attrs[1..] :: b in attrs;
  }

  lemma {:induction false} PiecesAreFree(attrs: seq<Attr>)
    requires PlainKeys(attrs)
    ensures forall p <- Pieces(attrs) :: Free(p, COLON)
  {
    if attrs != [] {
      assert forall b <- attrs[1..] :: b in attrs;
      PiecesAreFree(attrs[1..]);
      AttrFieldSplits(attrs[0]);
    }
  }

  function Body(attrs: seq<Attr>): Text
    requires attrs != []
  {
    Join(Pieces(attrs), COLON)
  }

  lemma BodyParses(attrs: seq<Attr>)
    requires attrs != [] && PlainKeys(attrs) && DistinctKeys(attrs)
    ensures ParseAttrs(Body(attrs)) == Ok(attrs)
  {
    PiecesAreFree(attrs);
    SplitAllUndoesJoin(Pieces(attrs), COLON);
    PiecesParse(attrs, []);
    assert [] + attrs == attrs;
  }

  // --------------------------------------------------- what rstrip removes

  /** White space that the escaper leaves as it is. */
  predicate BareSpace(c: Code) {
    IsSpace(c) && 32 <= c
  }

  /** A value without the trailing white space that reaches the line unescaped. */
  function Trim(v: Text): (r: Text)
    ensures r <= v
    ensures r == v <==> v == [] || !BareSpace(v[|v| - 1])
  {
    if v != [] && BareSpace(v[|v| - 1]) then Trim(v[..|v| - 1]) else v
  }

  lemma {:induction false} StripEscaped(v: Text)
    ensures RStrip(Esc(v)) == Esc(Trim(v))
  {
    if v != [] {
      var front, c := v[..|v| - 1], v[|v| - 1];
      assert v == front + [c];
      EscapedAppend(front, [c], COLON);
      assert Escaped([c], COLON) == EscapedCode(c, COLON);
      if BareSpace(c) {
        StripEscaped(front);
        assert (Esc(front) + [c])[..|Esc(front)|] == Esc(front);
      }
    }
  }

  /** The attributes with the last value trimmed. */
  function TrimLast(attrs: seq<Attr>): (r: seq<Attr>)
    requires attrs != []
    ensures |r| == |attrs|
    ensures forall i :: 0 <= i < |attrs| ==> r[i].key == attrs[i].key
    ensures r == attrs <==> Trim(attrs[|attrs| - 1].value) == attrs[|attrs| - 1].value
  {
    var last := attrs[|attrs| - 1];
    attrs[|attrs| - 1 := last.(value := Trim(last.value))]
  }

  lemma StripField(f: Text, rest: Text)
    ensures RStrip(Field(f, rest)) == Field(f, RStrip(rest))
  {
    RStripKeepsFront(f + [COLON], rest);
  }

  lemma {:induction false} StripBody(attrs: seq<Attr>)
    requires attrs != []
    ensures RStrip(Body(attrs)) == Body(TrimLast(attrs))
  {
    var a, t := attrs[0], TrimLast(attrs);
    if |attrs| == 1 {
      RStripKeepsFront(a.key + [EQUALS], Esc(a.value));
      StripEscaped(a.value);
      assert Pieces(attrs) == [AttrField(a)] && Pieces(t) == [AttrField(t[0])];
    } else {
      StripBody(attrs[1..]);
      assert t[1..] == TrimLast(attrs[1..]);
      JoinCons(AttrField(a), Pieces(attrs[1..]), COLON);
      JoinCons(AttrField(a), Pieces(t[1..]), COLON);
      StripField(AttrField(a), Body(attrs[1..]));
    }
  }

  lemma {:induction false} SameKeys(xs: seq<Attr>, ys: seq<Attr>)
    requires |xs| == |ys| && forall i :: 0 <= i < |xs| ==> xs[i].key == ys[i].key
    ensures DistinctKeys(xs) ==> DistinctKeys(ys)
    ensures PlainKeys(xs) ==> PlainKeys(ys)
  {
    if xs != [] {
      SameKeys(xs[1..], ys[1..]);
      if DistinctKeys(xs) {
        forall i | 0 <= i < |ys| - 1
          ensures ys[1..][i].key != ys[0].key
        {
          assert xs[1..][i] in xs[1..];
        }
      }
      if PlainKeys(xs) {
        forall i | 0 <= i < |ys|
          ensures PlainKey(ys[i].key)
        {
          assert xs[i] in xs;
        }
      }
    }
  }

  // --------------------------------------------------------- the whole line

  /** A line with this tag and these five fields, as rstrip leaves it, cut the way the parser cuts it. */
  function Line(tag: Text, f0: Text, f1: Text, f2: Text, f3: Text, body: Text): Text {
    Field(tag, Field(f0, Field(f1, Field(f2, Field(f3, body)))))
  }

  lemma CutField(f: Text, rest: Text, max: nat)
    requires Free(f, COLON) && 0 < max
    ensures SplitN(Field(f, rest), COLON, max) == [f] + SplitN(rest, COLON, max - 1)
  {
    SplitFirst(f, rest, COLON, max);
  }

  lemma CutFive(f0: Text, f1: Text, f2: Text, f3: Text, body: Text)
    requires Free(f0, COLON) && Free(f1, COLON) && Free(f2, COLON) && Free(f3, COLON)
    ensures SplitN(Field(f0, Field(f1, Field(f2, Field(f3, body)))), COLON, 4) == [f0, f1, f2, f3, body]
  {
    hide Field;
    NoCut(body, COLON, 0);
    CutField(f3, body, 1);
    CutField(f2, Field(f3, body), 2);
    CutField(f1, Field(f2, Field(f3, body)), 3);
    CutField(f0, Field(f1, Field(f2, Field(f3, body))), 4);
  }

  lemma Tags(t: Text)
    ensures Free(RequestTag(), COLON) && Free(ResponseTag(), COLON)
    ensures RequestTag() != ResponseTag()
    ensures Field(RequestTag(), t) != [] && Field(ResponseTag(), t) != []
    ensures !(ErrorTag() <= Field(RequestTag(), t)) && !(ErrorTag() <= Field(ResponseTag(), t))
  {
    assert RequestTag()[2] != ResponseTag()[2];
    assert Field(RequestTag(), t)[0] == '%' as int && Field(ResponseTag(), t)[0] == '%' as int;
    assert ErrorTag()[0] == 'E' as int;
  }

  lemma CutTag(tag: Text, rest: Text)
    requires Free(tag, COLON)
    ensures RStrip(Field(tag, rest)) == Field(tag, RStrip(rest))
    ensures SplitN(RStrip(Field(tag, rest)), COLON, 1) == [tag, RStrip(rest)]
  {
    hide Field, SplitN, RStrip;
    StripField(tag, rest);
    CutField(tag, RStrip(rest), 1);
    NoCut(RStrip(rest), COLON, 0);
  }

  /** What the parser makes of a tagged line: the rest of it, stripped, goes to the tag's handler. */
  lemma DispatchTagged(rest: Text, env: Env)
    ensures ParseLine(Field(RequestTag(), rest), env) == ParseRequest(RStrip(rest), env)
    ensures ParseLine(Field(ResponseTag(), rest), env) == ParseWatchOrResponse(RStrip(rest), env)
  {
    hide Field, SplitN, RStrip, RequestTag, ResponseTag, ErrorTag, Free, ParseRequest, ParseWatchOrResponse;
    Tags(rest);
    Tags(RStrip(rest));
    CutTag(RequestTag(), rest);
    CutTag(ResponseTag(), rest);
  }

  /** The printed tail with the attributes split off, and what rstrip makes of it. */
  lemma TailShape(m: Message)
    requires Printable(m) && m.attrs.value != []
    ensures Tail(m) == Field(Esc(m.name.value), Field(Esc(RetText(m)), Body(m.attrs.value)))
    ensures RStrip(Tail(m)) == Field(Esc(m.name.value), Field(Esc(RetText(m)), Body(TrimLast(m.attrs.value))))
  {
    var attrs := m.attrs.value;
    AttrsTextIsJoin(attrs);
    var e, b := Esc(RetText(m)), Body(attrs);
    assert e + ([COLON] + b) == Field(e, b);
    StripBody(attrs);
    StripField(e, b);
    StripField(Esc(m.name.value), Field(e, b));
  }

  /** A message built by YATEMessage: id and timestamp are never empty, and a
      dictionary has no key twice. */
  predicate Built(m: Message) {
    m.mid != [] && m.timestamp != [] && (m.attrs.Some? ==> DistinctKeys(m.attrs.value))
  }

  /** The request as its receiver sees it: the return value None arrives as "". */
  function Received(m: Message): Message {
    m.(retvalue := Some(RetText(m)))
  }

  /** Attributes that can be printed without losing their structure. */
  predicate PlainAttrs(m: Message)
    requires Printable(m)
  {
    m.attrs.value != [] && PlainKeys(m.attrs.value)
  }

  /** Printing then parsing: everything arrives, except that the last value
      loses the white space rstrip takes. */
  lemma RequestArrives(m: Message, env: Env)
    requires Printable(m) && Built(m) && m.kind == Request
    requires PlainAttrs(m) && Free(m.timestamp, COLON)
    requires Free(m.mid, COLON) && Free(m.mid, PERCENT)
    ensures ParseLine(FormatMessage(m), env) == Ok(Received(m).(attrs := Some(TrimLast(m.attrs.value))))
  {
    hide Field, SplitN, RStrip, Tail, Body, Trim, Esc, DistinctKeys, PlainKeys, ParseAttrs, Unescaped;
    var attrs := TrimLast(m.attrs.value);
    var e, r := Esc(m.name.value), Esc(RetText(m));
    var rest := Field(m.mid, Field(m.timestamp, Tail(m)));
    DispatchTagged(rest, env);
    StripField(m.mid, Field(m.timestamp, Tail(m)));
    StripField(m.timestamp, Tail(m));
    TailShape(m);
    EscIsFree(m.name.value);
    EscIsFree(RetText(m));
    CutFive(m.mid, m.timestamp, e, r, Body(attrs));
    SameKeys(m.attrs.value, attrs);
    BodyParses(attrs);
    PlainUnescapes(m.mid);
  }

  lemma {:induction false} PlainUnescapes(s: Text)
    requires Free(s, PERCENT)
    ensures Unescaped(s) == Ok(s)
  {
    if s != [] {
      assert s[0] in s && forall c <- s[1..] :: c in s;
      PlainUnescapes(s[1..]);
      assert [s[0]] + s[1..] == s;
    }
  }

  // ------------------------------------------------------- exact conditions

  lemma {:induction false} FindInPrefix(s: Text, p: Text, sep: Code)
    requires p <= s
    requires Find(p, sep) < |p|
    ensures Find(s, sep) == Find(p, sep)
  {
    if p != [] && p[0] != sep {
      assert p[1..] <= s[1..];
      FindInPrefix(s[1..], p[1..], sep);
    }
  }

  lemma FindInField(f: Text, rest: Text)
    ensures var k := Find(Field(f, rest), COLON); k <= |f| && (k == |f| <==> Free(f, COLON))
  {
    var k := Find(Field(f, rest), COLON);
    assert Field(f, rest)[|f|] == COLON;
    assert forall i :: 0 <= i < |f| ==> Field(f, rest)[i] == f[i];
    if k < |f| {
      assert f[k] in f;
    }
  }

  /** What the parser takes for the first field of a printed line: the field
      up to its first separator. */
  lemma FirstCut(f: Text, rest: Text, max: nat)
    requires |SplitN(RStrip(Field(f, rest)), COLON, max)| > 1
    ensures var v := SplitN(RStrip(Field(f, rest)), COLON, max);
      && v[0] <= f
      && (v[0] == f <==> Free(f, COLON))
      && (v[0] != f ==> f[|v[0]|] == COLON)
  {
    var whole := Field(f, rest);
    var s := RStrip(whole);
    RStripIsLongest(whole);
    FindInPrefix(whole, s, COLON);
    FindInField(f, rest);
    var k := Find(s, COLON);
    assert SplitN(s, COLON, max)[0] == s[..k];
    assert s[..k] == whole[..k] == f[..k];
  }

  lemma {:induction false} PutKeepsPlain(attrs: seq<Attr>, key: Text, value: Text)
    requires PlainKeys(attrs) && PlainKey(key)
    ensures Put(attrs, key, value) != [] && PlainKeys(Put(attrs, key, value))
  {
    if attrs != [] {
      assert attrs[0] in attrs && forall a <- attrs[1..] :: a in attrs;
      PutKeepsPlain(attrs[1..], key, value);
    }
  }

  lemma KeyOfPiece(p: Text)
    requires Free(p, COLON)
    ensures var kv := SplitN(p, EQUALS, 1); |kv| == 2 ==> PlainKey(kv[0])
  {
    var k := Find(p, EQUALS);
    assert forall c <- p[..k] :: c in p;
    assert EQUALS !in p[..k];
  }

  /** The parser never builds an empty dictionary, nor a key with a separator in it. */
  lemma {:induction false} ParsedKeysArePlain(pieces: seq<Text>, acc: seq<Attr>)
    requires forall p <- pieces :: Free(p, COLON)
    requires PlainKeys(acc)
    ensures var r := FromPieces(pieces, acc);
      r.Ok? ==> PlainKeys(r.value) && (pieces != [] || acc != [] ==> r.value != [])
  {
    if pieces == [] || FromPieces(pieces, acc).Raise? {
      return;
    }
    var kv := SplitN(pieces[0], EQUALS, 1);
    KeyOfPiece(pieces[0]);
    PutKeepsPlain(acc, kv[0], Unescaped(kv[1]).value);
    assert forall p <- pieces[1..] :: p in pieces;
    ParsedKeysArePlain(pieces[1..], Put(acc, kv[0], Unescaped(kv[1]).value));
  }

  lemma ParsedAttrsArePlain(body: Text)
    ensures ParseAttrs(body).Ok? ==> ParseAttrs(body).value != [] && PlainKeys(ParseAttrs(body).value)
  {
    SplitEnough(body, COLON, |body|);
    ParsedKeysArePlain(Split(body, COLON), []);
  }

  /** What is asked of a request for its line to carry it. */
  predicate Carried(m: Message)
    requires Printable(m)
  {
    && Free(m.mid, COLON) && Free(m.mid, PERCENT)
    && Free(m.timestamp, COLON)
    && PlainAttrs(m)
    && !EndsInSpace(m)
  }

  predicate EndsInSpace(m: Message)
    requires Printable(m) && m.attrs.value != []
  {
    var last := m.attrs.value[|m.attrs.value| - 1].value;
    last != [] && BareSpace(last[|last| - 1])
  }

  /** The clock prints a number. */
  predicate Sane(env: Env) {
    env.now != [] && Free(env.now, COLON)
  }

  /** A request comes back equal from its own line exactly when its id has
      neither ':' nor '%', its timestamp has no ':', it has attributes, no
      attribute key has ':' or '=', and the last value does not end in white space. */
  lemma RequestRoundTripExactly(m: Message, env: Env)
    requires Printable(m) && Built(m) && m.kind == Request && Sane(env)
    ensures ParseLine(FormatMessage(m), env) == Ok(Received(m)) <==> Carried(m)
  {
    hide ParseLine, FormatMessage, PlainAttrs, Free, Trim, TrimLast, RetText;
    if Carried(m) {
      RequestArrives(m, env);
    } else if ParseLine(FormatMessage(m), env) == Ok(Received(m)) {
      RequestNeedsPlainFields(m, env);
      RequestArrives(m, env);
      assert false;
    }
  }

  /** A field that survives a parse in which an empty field is replaced by
      `spare` was cut off whole, and unescaping left it alone. */
  lemma FieldKept(f: Text, cut: Text, spare: Text)
    requires cut <= f && (cut != f ==> f[|cut|] == COLON)
    requires f != [] && spare != [] && spare[0] != COLON
    requires Unescaped(cut).Ok?
    requires f == if Unescaped(cut).value == [] then spare else Unescaped(cut).value
    ensures cut == f && Free(f, PERCENT)
  {
  }

  lemma RequestNeedsPlainFields(m: Message, env: Env)
    requires Printable(m) && Built(m) && m.kind == Request && Sane(env)
    requires ParseLine(FormatMessage(m), env) == Ok(Received(m))
    ensures Free(m.mid, COLON) && Free(m.mid, PERCENT) && Free(m.timestamp, COLON) && PlainAttrs(m)
  {
    hide ParseLine, Field, RStrip, Tail, FromPieces, ParseAttrs, PlainKeys, Unescaped, SplitN;
    var rest := Field(m.timestamp, Tail(m));
    DispatchTagged(Field(m.mid, rest), env);
    var s := RStrip(Field(m.mid, rest));
    assert ParseRequest(s, env) == Ok(Received(m));
    var v := SplitN(s, COLON, 4);
    assert |v| == 5;
    ParsedAttrsArePlain(v[4]);
    SplitFieldsAreFree(s, COLON, 4);
    assert v[1] in v[..|v| - 1];
    assert Free(m.timestamp, COLON) && m.timestamp[0] in m.timestamp;
    hide ParseRequest;
    FirstCut(m.mid, rest, 4);
    FieldKept(m.mid, v[0], m.timestamp + env.suffix);
  }

  // -------------------------------------------------------------- responses

  /** The response as its receiver sees it: MessageParser does not unescape
      the name and the return value of a response. */
  function Answer(m: Message, env: Env): Message
    requires Printable(m)
  {
    Message(m.mid, env.now, Some(Esc(m.name.value)), Some(Esc(RetText(m))), m.attrs, Response)
  }

  lemma ResponseArrives(m: Message, handled: bool, env: Env)
    requires Printable(m) && Built(m) && PlainAttrs(m) && Free(m.mid, COLON)
    ensures ParseLine(FormatResponse(m, handled), env)
         == Ok(Answer(m, env).(attrs := Some(TrimLast(m.attrs.value))))
  {
    hide Field, SplitN, RStrip, Tail, Body, Trim, Esc, DistinctKeys, PlainKeys, ParseAttrs;
    var attrs, flag := TrimLast(m.attrs.value), FlagText(handled);
    DispatchTagged(Field(m.mid, Field(flag, Tail(m))), env);
    StripField(m.mid, Field(flag, Tail(m)));
    StripField(flag, Tail(m));
    TailShape(m);
    EscIsFree(m.name.value);
    EscIsFree(RetText(m));
    CutFive(m.mid, flag, Esc(m.name.value), Esc(RetText(m)), Body(attrs));
    SameKeys(m.attrs.value, attrs);
    BodyParses(attrs);
  }

  /** A response says what it was printed from exactly when the id has no
      ':', there are attributes with plain keys, and the last value does not
      end in white space. A '%' in the id does no harm here. */
  lemma ResponseRoundTripExactly(m: Message, handled: bool, env: Env)
    requires Printable(m) && Built(m)
    ensures ParseLine(FormatResponse(m, handled), env) == Ok(Answer(m, env))
      <==> Free(m.mid, COLON) && PlainAttrs(m) && !EndsInSpace(m)
  {
    hide ParseLine, FormatResponse, PlainAttrs, Free, Trim, TrimLast, RetText;
    if Free(m.mid, COLON) && PlainAttrs(m) {
      ResponseArrives(m, handled, env);
    } else if ParseLine(FormatResponse(m, handled), env) == Ok(Answer(m, env)) {
      ResponseNeedsPlainFields(m, handled, env);
      assert false;
    }
  }

  lemma ResponseNeedsPlainFields(m: Message, handled: bool, env: Env)
    requires Printable(m) && Built(m)
    requires ParseLine(FormatResponse(m, handled), env) == Ok(Answer(m, env))
    ensures Free(m.mid, COLON) && PlainAttrs(m)
  {
    hide ParseLine, Field, RStrip, Tail, FromPieces, ParseAttrs, PlainKeys, Unescaped, SplitN;
    var rest := Field(FlagText(handled), Tail(m));
    DispatchTagged(Field(m.mid, rest), env);
    var s := RStrip(Field(m.mid, rest));
    assert ParseWatchOrResponse(s, env) == Ok(Answer(m, env));
    var v := SplitN(s, COLON, 4);
    assert |v| == 5;
    ParsedAttrsArePlain(v[4]);
    FirstCut(m.mid, rest, 4);
  }

  lemma HasKeyCons(attrs: seq<Attr>, k: Text)
    requires attrs != []
    ensures HasKey(attrs, k) <==> attrs[0].key == k || HasKey(attrs[1..], k)
  {
    assert attrs[0] in attrs;
    assert forall a <- attrs[1..] :: a in attrs;
    assert forall a <- attrs :: a == attrs[0] || a in attrs[1..];
  }

  lemma {:induction false} PutKeys(attrs: seq<Attr>, key: Text, value: Text, k: Text)
    ensures HasKey(Put(attrs, key, value), k) <==> k == key || HasKey(attrs, k)
  {
    var r := Put(attrs, key, value);
    HasKeyCons(r, k);
    if attrs != [] {
      HasKeyCons(attrs, k);
      if attrs[0].key == key {
        assert r[1..] == attrs[1..];
      } else {
        assert r[1..] == Put(attrs[1..], key, value);
        PutKeys(attrs[1..], key, value, k);
      }
    } else {
      assert r[1..] == [];
    }
  }

  lemma {:induction false} PutKeepsDistinct(attrs: seq<Attr>, key: Text, value: Text)
    requires DistinctKeys(attrs)
    ensures DistinctKeys(Put(attrs, key, value))
  {
    hide HasKey;
    var r := Put(attrs, key, value);
    if attrs == [] {
      assert r[1..] == [];
      NoKeys(key);
    } else if attrs[0].key == key {
      assert r[1..] == attrs[1..];
    } else {
      assert r[1..] == Put(attrs[1..], key, value);
      PutKeepsDistinct(attrs[1..], key, value);
      PutKeys(attrs[1..], key, value, attrs[0].key);
    }
  }

  lemma NoKeys(k: Text)
    ensures !HasKey([], k) && DistinctKeys([])
  {
  }

  lemma {:induction false} ParsedKeysAreDistinct(pieces: seq<Text>, acc: seq<Attr>)
    requires DistinctKeys(acc)
    ensures FromPieces(pieces, acc).Ok? ==> DistinctKeys(FromPieces(pieces, acc).value)
  {
    if pieces == [] || FromPieces(pieces, acc).Raise? {
      return;
    }
    var kv := SplitN(pieces[0], EQUALS, 1);
    PutKeepsDistinct(acc, kv[0], Unescaped(kv[1]).value);
    ParsedKeysAreDistinct(pieces[1..], Put(acc, kv[0], Unescaped(kv[1]).value));
  }

  /** The field of a line that carries the message id. */
  function IdField(line: Text): Text {
    var parts := SplitN(RStrip(line), COLON, 1);
    if |parts| == 2 then SplitN(parts[1], COLON, 4)[0] else []
  }

  /** An incoming request line whose id field is non-empty and free of '%',
      and that has attributes, is answered under the same id; the answer
      brings back the attributes, and a name and a return value that
      unescape to those of the request. */
  lemma IncomingRequestIsAnswered(line: Text, env: Env, handled: bool, env': Env)
    requires ParseLine(line, env).Ok?
    requires var m := ParseLine(line, env).value; m.kind == Request && m.attrs.Some?
    requires IdField(line) != [] && Free(IdField(line), PERCENT)
    requires Sane(env)
    ensures var m := ParseLine(line, env).value;
      && Printable(m) && m.mid == IdField(line) && m.attrs.value != []
      && var reply := FormatResponse(m, handled);
      && IdField(reply) == IdField(line)
      && var back := ParseLine(reply, env');
      && back == Ok(Answer(m, env').(attrs := Some(TrimLast(m.attrs.value))))
      && Unescaped(back.value.name.value) == Ok(m.name.value)
      && Unescaped(back.value.retvalue.value) == Ok(RetText(m))
  {
    var m := ParseLine(line, env).value;
    RequestLineShape(line, env);
    hide ParseLine, FormatResponse, PlainKeys, Free, Trim, TrimLast, RetText, IdField, Unescaped, DistinctKeys;
    ResponseArrives(m, handled, env');
    ResponseIdField(m, handled);
    EscIsFree(m.name.value);
    EscIsFree(RetText(m));
  }

  lemma ResponseIdField(m: Message, handled: bool)
    requires Printable(m) && Free(m.mid, COLON)
    ensures IdField(FormatResponse(m, handled)) == m.mid
  {
    hide Field, SplitN, RStrip, Tail;
    var rest := Field(FlagText(handled), Tail(m));
    Tags([]);
    CutTag(ResponseTag(), Field(m.mid, rest));
    StripField(m.mid, rest);
    CutField(m.mid, RStrip(rest), 4);
  }

  lemma RequestLineShape(line: Text, env: Env)
    requires ParseLine(line, env).Ok?
    requires var m := ParseLine(line, env).value; m.kind == Request && m.attrs.Some?
    requires IdField(line) != [] && Free(IdField(line), PERCENT)
    requires Sane(env)
    ensures var m := ParseLine(line, env).value;
      && Printable(m) && Built(m) && PlainAttrs(m)
      && m.mid == IdField(line) && Free(m.mid, COLON)
  {
    hide RStrip, FromPieces, Unescaped, SplitN, DistinctKeys, PlainKeys, Ascii;
    var m := ParseLine(line, env).value;
    var rest := SplitN(RStrip(line), COLON, 1)[1];
    assert ParseRequest(rest, env) == Ok(m);
    var v := SplitN(rest, COLON, 4);
    SplitFieldsAreFree(rest, COLON, 4);
    assert v[0] in v[..|v| - 1];
    PlainUnescapes(v[0]);
    ParsedAttrsArePlain(v[4]);
    NoKeys([]);
    ParsedKeysAreDistinct(Split(v[4], COLON), []);
  }

  // ------------------------------------------------ what stands in which field

  /** The four fields behind a tag, and the attributes, joined. */
  lemma {:induction false} LineIsJoin(tag: Text, f0: Text, f1: Text, f2: Text, f3: Text, attrs: seq<Attr>)
    ensures Field(tag, Field(f0, Field(f1, Field(f2, f3 + AttrsText(attrs)))))
         == Join([tag, f0, f1, f2, f3] + Pieces(attrs), COLON)
  {
    hide AttrsText, Pieces, Join;
    var ps := Pieces(attrs);
    JoinCons(tag, [f0, f1, f2, f3] + ps, COLON);
    JoinCons(f0, [f1, f2, f3] + ps, COLON);
    JoinCons(f1, [f2, f3] + ps, COLON);
    JoinCons(f2, [f3] + ps, COLON);
    assert [tag] + ([f0, f1, f2, f3] + ps) == [tag, f0, f1, f2, f3] + ps;
    assert [f0] + ([f1, f2, f3] + ps) == [f0, f1, f2, f3] + ps;
    assert [f1] + ([f2, f3] + ps) == [f1, f2, f3] + ps && [f2] + ([f3] + ps) == [f2, f3] + ps;
    LastFieldIsJoin(f3, attrs);
  }

  lemma LastFieldIsJoin(f: Text, attrs: seq<Attr>)
    ensures f + AttrsText(attrs) == Join([f] + Pieces(attrs), COLON)
  {
    hide AttrsText, Pieces;
    NothingPrinted();
    var ps := Pieces(attrs);
    if attrs == [] {
      assert [f] + ps == [f] && f + [] == f;
    } else {
      AttrsTextIsJoin(attrs);
      JoinCons(f, ps, COLON);
      assert f + ([COLON] + Join(ps, COLON)) == f + [COLON] + Join(ps, COLON);
    }
  }

  lemma NothingPrinted()
    ensures AttrsText([]) == [] && Pieces([]) == []
  {
  }

  lemma {:induction false} PieceAt(attrs: seq<Attr>, i: nat)
    requires i < |attrs|
    ensures Pieces(attrs)[i] == attrs[i].key + [61] + Esc(attrs[i].value)
  {
    hide Esc;
    if i > 0 {
      PieceAt(attrs[1..], i - 1);
    }
  }

  /** The fields of a line, cut at each ':'. */
  lemma FieldsOfLine(tag: Text, f0: Text, f1: Text, f2: Text, f3: Text, attrs: seq<Attr>)
    requires Free(tag, COLON) && Free(f0, COLON) && Free(f1, COLON) && PlainKeys(attrs)
    ensures var fs := Split(Field(tag, Field(f0, Field(f1, Field(Esc(f2), Esc(f3) + AttrsText(attrs))))), COLON);
      && |fs| == 5 + |attrs| && fs[..5] == [tag, f0, f1, Esc(f2), Esc(f3)]
      && forall i :: 0 <= i < |attrs| ==> fs[5 + i] == attrs[i].key + [61] + Esc(attrs[i].value)
  {
    hide Split, Field, Esc, AttrsText, Pieces, Join, PlainKeys;
    EscIsFree(f2);
    EscIsFree(f3);
    PiecesAreFree(attrs);
    var all := [tag, f0, f1, Esc(f2), Esc(f3)] + Pieces(attrs);
    LineIsJoin(tag, f0, f1, Esc(f2), Esc(f3), attrs);
    SplitAllUndoesJoin(all, COLON);
    forall i | 0 <= i < |attrs|
      ensures all[5 + i] == attrs[i].key + [61] + Esc(attrs[i].value)
    {
      PieceAt(attrs, i);
    }
  }

  /** A printed request, field by field. */
  lemma RequestFields(m: Message)
    requires Printable(m) && Free(m.mid, COLON) && Free(m.timestamp, COLON) && PlainKeys(m.attrs.value)
    ensures var fs, attrs := Split(FormatMessage(m), 58), m.attrs.value;
      && |fs| == 5 + |attrs|
      && fs[0] == Ascii("%%>message") && fs[1] == m.mid && fs[2] == m.timestamp && fs[3] == Esc(m.name.value)
      && fs[4] == (if m.retvalue.Some? then Esc(m.retvalue.value) else [])
      && forall i :: 0 <= i < |attrs| ==> fs[5 + i] == attrs[i].key + [61] + Esc(attrs[i].value)
  {
    Tags([]);
    hide Split, Field, Free, AttrsText, PlainKeys;
    FieldsOfLine(RequestTag(), m.mid, m.timestamp, m.name.value, RetText(m), m.attrs.value);
  }

  /** A printed response, field by field: the third says true exactly for a handled message. */
  lemma ResponseFields(m: Message, handled: bool)
    requires Printable(m) && Free(m.mid, COLON) && PlainKeys(m.attrs.value)
    ensures var fs, attrs := Split(FormatResponse(m, handled), 58), m.attrs.value;
      && |fs| == 5 + |attrs|
      && fs[0] == Ascii("%%<message") && fs[1] == m.mid && fs[3] == Esc(m.name.value)
      && fs[2] == (if handled then Ascii("true") else Ascii("false"))
      && fs[4] == (if m.retvalue.Some? then Esc(m.retvalue.value) else [])
      && forall i :: 0 <= i < |attrs| ==> fs[5 + i] == attrs[i].key + [61] + Esc(attrs[i].value)
  {
    Tags([]);
    hide Split, Field, AttrsText, PlainKeys;
    FieldsOfLine(ResponseTag(), m.mid, FlagText(handled), m.name.value, RetText(m), m.attrs.value);
  }

  /** "%%<message" and "true" or "false", in code points. */
  const REPLY: Text := [37, 37, 60, 109, 101, 115, 115, 97, 103, 101]

  function Word(handled: bool): Text {
    if handled then [116, 114, 117, 101] else [102, 97, 108, 115, 101]
  }

  /** The line answers the message with this id by this word. */
  predicate Replies(line: Text, mid: Text, handled: bool) {
    REPLY + [58] + mid + [58] + Word(handled) + [58] <= line
  }

  /** So does every response, whatever its id, and it says only one of the two. */
  lemma ResponseReplies(m: Message, handled: bool)
    requires Printable(m)
    ensures Replies(FormatResponse(m, handled), m.mid, handled)
    ensures !Replies(FormatResponse(m, handled), m.mid, !handled)
  {
    WordsPrinted(handled);
    var front, line := REPLY + [58] + m.mid + [58], FormatResponse(m, handled);
    hide REPLY, Word, Tail, Field, ResponseTag, FlagText;
    ThreeFields(REPLY, m.mid, Word(handled), Tail(m));
    WordsDiffer(front, handled, line);
  }

  lemma ThreeFields(a: Text, b: Text, c: Text, rest: Text)
    ensures a + [58] + b + [58] + c + [58] <= Field(a, Field(b, Field(c, rest)))
  {
    var ab, bc, x: Text := a + [58], b + [58], c + [58] + rest;
    assert ab + (bc + x) == ab + bc + x;
    assert ab + bc == a + [58] + b + [58];
    assert ab + bc + x == ab + bc + c + [58] + rest;
  }

  lemma WordsPrinted(handled: bool)
    ensures ResponseTag() == REPLY && FlagText(handled) == Word(handled)
  {
  }

  lemma WordsDiffer(front: Text, handled: bool, line: Text)
    requires front + Word(handled) + [58] <= line
    ensures !(front + Word(!handled) + [58] <= line)
  {
    var n := |front|;
    assert (front + Word(handled) + [58])[n] == Word(handled)[0] == line[n];
    assert (front + Word(!handled) + [58])[n] == Word(!handled)[0] != line[n];
  }

  /** The test a reader of a response makes: `values[1] in ("true", "ok")`. */
  predicate Processed(line: Text) {
    var parts := SplitN(RStrip(line), COLON, 1);
    |parts| == 2 &&
    var values := SplitN(parts[1], COLON, 4);
    |values| > 1 && (values[1] == Ascii("true") || values[1] == Ascii("ok"))
  }

  /** It succeeds exactly on the answers to messages that were handled. */
  lemma HandledArrivesExactly(m: Message, handled: bool)
    requires Printable(m) && Free(m.mid, COLON)
    ensures Processed(FormatResponse(m, handled)) <==> handled
  {
    hide Field, SplitN, RStrip, Tail, Ascii;
    var flag, rest := FlagText(handled), Field(m.mid, Field(FlagText(handled), Tail(m)));
    Tags([]);
    FlagsDiffer();
    CutTag(ResponseTag(), rest);
    StripField(m.mid, Field(flag, Tail(m)));
    StripField(flag, Tail(m));
    CutField(m.mid, Field(flag, RStrip(Tail(m))), 4);
    CutField(flag, RStrip(Tail(m)), 3);
  }

  lemma FlagsDiffer()
    ensures Free(FlagText(true), COLON) && Free(FlagText(false), COLON)
    ensures FlagText(true) == Ascii("true") && FlagText(false) == Ascii("false")
    ensures Ascii("false") != Ascii("true") && Ascii("false") != Ascii("ok")
  {
    assert |Ascii("false")| == 5 && |Ascii("true")| == 4 && |Ascii("ok")| == 2;
  }

  // ------------------------------------------------- which lines are accepted

  /** A piece that becomes an attribute. */
  predicate GoodPiece(p: Text) {
    EQUALS in p && Unescaped(p[Find(p, EQUALS) + 1..]).Ok?
  }

  lemma {:induction false} PiecesAcceptedExactly(pieces: seq<Text>, acc: seq<Attr>)
    ensures FromPieces(pieces, acc).Ok? <==> forall p <- pieces :: GoodPiece(p)
  {
    if pieces == [] {
      return;
    }
    var p, kv := pieces[0], SplitN(pieces[0], EQUALS, 1);
    PieceInTwo(p);
    hide GoodPiece;
    assert pieces == [p] + pieces[1..];
    if GoodPiece(p) {
      PiecesAcceptedExactly(pieces[1..], Put(acc, kv[0], Unescaped(kv[1]).value));
    }
  }

  lemma PieceInTwo(p: Text)
    ensures var kv := SplitN(p, EQUALS, 1); GoodPiece(p) <==> |kv| == 2 && Unescaped(kv[1]).Ok?
  {
    var k := Find(p, EQUALS);
    if k < |p| {
      assert p[k] in p;
      NoCut(p[k + 1..], EQUALS, 0);
    }
  }

  /** An id, a time and a name at least; what is to be unescaped can be; and
      each attribute has a '='. */
  predicate WellFormed(fs: seq<Text>) {
    && |fs| >= 3 && Unescaped(fs[0]).Ok? && Unescaped(fs[2]).Ok?
    && (|fs| >= 4 ==> Unescaped(fs[3]).Ok?)
    && (|fs| >= 5 ==> forall p <- Split(fs[4], COLON) :: GoodPiece(p))
  }

  /** A request line is accepted exactly when its fields are so. Return value
      and attributes are there when their fields are. */
  lemma RequestAcceptedExactly(rest: Text, env: Env)
    ensures var fs, r := SplitN(RStrip(rest), 58, 4), ParseLine(Field(Ascii("%%>message"), rest), env);
      && (r.Ok? <==> WellFormed(fs))
      && (r.Ok? ==>
            && r.value.kind == Request && r.value.name == Some(Unescaped(fs[2]).value)
            && (r.value.retvalue.Some? <==> |fs| >= 4) && (r.value.attrs.Some? <==> |fs| == 5)
            && (|fs| >= 4 ==> r.value.retvalue == Some(Unescaped(fs[3]).value)))
  {
    DispatchTagged(rest, env);
    hide ParseLine, Field, RStrip, SplitN, FromPieces, Unescaped, GoodPiece;
    var fs := SplitN(RStrip(rest), 58, 4);
    if |fs| == 5 {
      PiecesAcceptedExactly(Split(fs[4], COLON), []);
    }
  }

  /** The other message line needs all five fields. It is a notice when its id
      is empty, and then name and return value are unescaped; else it is the
      response to the request with that id. */
  lemma ResponseAcceptedExactly(rest: Text, env: Env)
    ensures var fs, r := SplitN(RStrip(rest), 58, 4), ParseLine(Field(Ascii("%%<message"), rest), env);
      && (r.Ok? <==>
            && |fs| == 5 && (forall p <- Split(fs[4], 58) :: GoodPiece(p))
            && (fs[0] == [] ==> Unescaped(fs[2]).Ok? && Unescaped(fs[3]).Ok?))
      && (r.Ok? ==> if fs[0] == [] then r.value.kind == Watch else r.value.kind == Response && r.value.mid == fs[0])
  {
    DispatchTagged(rest, env);
    PlainUnescapes([]);
    hide ParseLine, Field, RStrip, SplitN, FromPieces, Unescaped, GoodPiece;
    var fs := SplitN(RStrip(rest), 58, 4);
    if |fs| == 5 {
      PiecesAcceptedExactly(Split(fs[4], COLON), []);
    }
  }

  /** What an acknowledgement is judged by is its third field, or second; more
      fields do no harm. */
  lemma AcknowledgedExactly(rest: Text, env: Env)
    ensures var fs, yes := Split(RStrip(rest), 58), {Ok(Ascii("ok")), Ok(Ascii("true"))};
      && (ParseLine(Field(Ascii("%%<install"), rest), env).Ok? <==> |fs| >= 3 && Unescaped(fs[2]) in yes)
      && (ParseLine(Field(Ascii("%%<watch"), rest), env).Ok? <==> |fs| >= 2 && Unescaped(fs[1]) in yes)
  {
    DispatchAcknowledgement(rest, env);
    hide ParseLine, Field, RStrip, Split, Unescaped;
  }

  /** No other line but these four kinds is, nor one that begins with an error. */
  lemma OtherLinesRefused(line: Text, env: Env)
    requires
      || line == [] || Ascii("Error in:") <= RStrip(line)
      || SplitN(RStrip(line), 58, 1)[0] !in
           {Ascii("%%>message"), Ascii("%%<message"), Ascii("%%<install"), Ascii("%%<watch")}
    ensures ParseLine(line, env).Raise?
  {
    hide Ascii, RStrip, SplitN, ParseRequest, ParseWatchOrResponse, ParseAcknowledgement;
  }

  // ------------------------------------------- notices and acknowledgements

  /** A watch notice, sent under an empty id, arrives with its name, return
      value and attributes unescaped, under an id and a time of our own. */
  lemma WatchNoticeArrives(flag: Text, name: Text, ret: Text, attrs: seq<Attr>, env: Env)
    requires Free(flag, COLON) && attrs != [] && PlainKeys(attrs) && DistinctKeys(attrs)
    ensures ParseLine(Line(Ascii("%%<message"), [], flag, Esc(name), Esc(ret), Body(attrs)), env)
         == Ok(Message(env.now + env.suffix, env.now, Some(name), Some(ret), Some(TrimLast(attrs)), Watch))
  {
    hide Field, SplitN, RStrip, Body, Trim, TrimLast, Esc, DistinctKeys, PlainKeys, ParseAttrs, Unescaped;
    var last := TrimLast(attrs);
    StripBody(attrs);
    StripField(Esc(ret), Body(attrs));
    StripField(Esc(name), Field(Esc(ret), Body(attrs)));
    StripField(flag, Field(Esc(name), Field(Esc(ret), Body(attrs))));
    StripField([], Field(flag, Field(Esc(name), Field(Esc(ret), Body(attrs)))));
    DispatchTagged(Field([], Field(flag, Field(Esc(name), Field(Esc(ret), Body(attrs))))), env);
    EscIsFree(name);
    EscIsFree(ret);
    PlainUnescapes([]);
    CutFive([], flag, Esc(name), Esc(ret), Body(last));
    SameKeys(attrs, last);
    BodyParses(last);
  }

  lemma AcknowledgementTags(t: Text)
    ensures Free(InstallTag(), COLON) && Free(WatchTag(), COLON)
    ensures InstallTag() != WatchTag()
    ensures InstallTag() !in {RequestTag(), ResponseTag()} && WatchTag() !in {RequestTag(), ResponseTag()}
    ensures Field(InstallTag(), t) != [] && Field(WatchTag(), t) != []
    ensures !(ErrorTag() <= Field(InstallTag(), t)) && !(ErrorTag() <= Field(WatchTag(), t))
  {
    assert InstallTag()[3] != WatchTag()[3] && RequestTag()[2] != InstallTag()[2] && RequestTag()[2] != WatchTag()[2];
    assert ResponseTag()[3] != InstallTag()[3] && ResponseTag()[3] != WatchTag()[3];
    assert Field(InstallTag(), t)[0] == '%' as int && Field(WatchTag(), t)[0] == '%' as int;
    assert ErrorTag()[0] == 'E' as int;
  }

  lemma DispatchAcknowledgement(rest: Text, env: Env)
    ensures ParseLine(Field(InstallTag(), rest), env) == ParseAcknowledgement(RStrip(rest), 2, InstallResponse, env)
    ensures ParseLine(Field(WatchTag(), rest), env) == ParseAcknowledgement(RStrip(rest), 1, WatchResponse, env)
  {
    hide Field, SplitN, RStrip, RequestTag, ResponseTag, InstallTag, WatchTag, ErrorTag, Free, ParseAcknowledgement;
    AcknowledgementTags(rest);
    AcknowledgementTags(RStrip(rest));
    CutTag(InstallTag(), rest);
    CutTag(WatchTag(), rest);
  }

  /** An `install` is accepted exactly when the server's answer is "ok" or
      "true", up to trailing blanks; any other answer raises. */
  lemma InstallAccepted(priority: Text, name: Text, answer: Text, env: Env)
    requires Free(priority, COLON) && Free(name, COLON)
    ensures ParseLine(Field(Ascii("%%<install"), Field(priority, Field(name, Esc(answer)))), env)
         == if Trim(answer) in {Ascii("ok"), Ascii("true")}
            then Ok(Message(env.now + env.suffix, env.now, None, None, None, InstallResponse)) else Raise(Refused)
  {
    hide Split, RStrip, Esc, Unescaped, Trim, Ascii, Join;
    DispatchAcknowledgement(Field(priority, Field(name, Esc(answer))), env);
    StripField(name, Esc(answer));
    StripField(priority, Field(name, Esc(answer)));
    StripEscaped(answer);
    EscIsFree(Trim(answer));
    hide Field, ParseLine;
    JoinOfFields(priority, name, Esc(Trim(answer)));
    SplitAllUndoesJoin([priority, name, Esc(Trim(answer))], COLON);
  }

  lemma JoinOfFields(a: Text, b: Text, c: Text)
    ensures Join([b, c], COLON) == Field(b, c)
    ensures Join([a, b, c], COLON) == Field(a, Field(b, c))
  {
    assert [b, c][1..] == [c] && [a, b, c][1..] == [b, c];
  }

  /** The same for a `watch`, whose answer is one field earlier. */
  lemma WatchAccepted(name: Text, answer: Text, env: Env)
    requires Free(name, COLON)
    ensures ParseLine(Field(Ascii("%%<watch"), Field(name, Esc(answer))), env)
         == if Trim(answer) in {Ascii("ok"), Ascii("true")}
            then Ok(Message(env.now + env.suffix, env.now, None, None, None, WatchResponse)) else Raise(Refused)
  {
    hide Split, RStrip, Esc, Unescaped, Trim, Ascii, Join;
    DispatchAcknowledgement(Field(name, Esc(answer)), env);
    StripField(name, Esc(answer));
    StripEscaped(answer);
    EscIsFree(Trim(answer));
    hide Field, ParseLine;
    JoinOfFields([], name, Esc(Trim(answer)));
    SplitAllUndoesJoin([name, Esc(Trim(answer))], COLON);
  }

  // ------------------------------------------------------------ line framing

  /** Nothing that a line reader takes for the end of a line. */
  predicate OneLine(s: Text) {
    forall c <- s :: c != 10 && c != 13
  }

  lemma OneLineConcat(a: Text, b: Text)
    ensures OneLine(a + b) <==> OneLine(a) && OneLine(b)
  {
    assert forall c <- a :: c in a + b;
    assert forall c <- b :: c in a + b;
  }

  lemma OneLineField(f: Text, rest: Text)
    ensures OneLine(Field(f, rest)) <==> OneLine(f) && OneLine(rest)
  {
    OneLineConcat(f, [COLON]);
    OneLineConcat(f + [COLON], rest);
  }

  lemma OneLineEsc(s: Text)
    ensures OneLine(Esc(s))
  {
    EscapedHasNoControls(s, COLON);
  }

  predicate OneLineKeys(attrs: seq<Attr>) {
    attrs == [] || (OneLine(attrs[0].key) && OneLineKeys(attrs[1..]))
  }

  lemma {:induction false} OneLineAttrs(attrs: seq<Attr>)
    ensures OneLine(AttrsText(attrs)) <==> OneLineKeys(attrs)
  {
    if attrs == [] {
      return;
    }
    hide OneLine, AttrField;
    var a, rest := attrs[0], attrs[1..];
    OneLineAttrs(rest);
    OneLineAttrField(a);
    OneLineConcat([COLON] + AttrField(a), AttrsText(rest));
  }

  lemma OneLineAttrField(a: Attr)
    ensures OneLine([COLON] + AttrField(a)) <==> OneLine(a.key)
  {
    OneLineEsc(a.value);
    hide OneLine, Esc;
    OneLineConcat(a.key, [EQUALS]);
    OneLineConcat(a.key + [EQUALS], Esc(a.value));
    OneLineConcat([COLON], AttrField(a));
    OneLineSeparators();
  }

  lemma OneLineSeparators()
    ensures OneLine([COLON]) && OneLine([EQUALS]) && OneLine(RequestTag()) && OneLine(ResponseTag())
    ensures OneLine(FlagText(true)) && OneLine(FlagText(false))
  {
  }

  /** A printed message is one line of the stream exactly when the parts that
      are printed unescaped hold no line end. */
  lemma PrintedOnOneLine(m: Message, handled: bool)
    requires Printable(m)
    ensures OneLine(FormatMessage(m)) <==> OneLine(m.mid) && OneLine(m.timestamp) && OneLineKeys(m.attrs.value)
    ensures OneLine(FormatResponse(m, handled)) <==> OneLine(m.mid) && OneLineKeys(m.attrs.value)
  {
    hide OneLine, Field, Esc, AttrsText, OneLineKeys;
    OneLineSeparators();
    OneLineEsc(m.name.value);
    OneLineEsc(RetText(m));
    OneLineAttrs(m.attrs.value);
    OneLineConcat(Esc(RetText(m)), AttrsText(m.attrs.value));
    OneLineField(Esc(m.name.value), Esc(RetText(m)) + AttrsText(m.attrs.value));
    OneLineField(m.timestamp, Tail(m));
    OneLineField(m.mid, Field(m.timestamp, Tail(m)));
    OneLineField(RequestTag(), Field(m.mid, Field(m.timestamp, Tail(m))));
    var flag := FlagText(handled);
    OneLineField(flag, Tail(m));
    OneLineField(m.mid, Field(flag, Tail(m)));
    OneLineField(ResponseTag(), Field(m.mid, Field(flag, Tail(m))));
  }
}
