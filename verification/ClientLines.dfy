/**
From the bytes to the client and back: which incoming lines the client takes
for what, and what its own requests say when they arrive.
*/
module ClientLines {
  import opened Wrappers
  import opened Escape
  import opened Fields
  import opened Wire
  import opened WireRoundTrips
  import opened Connection
  import opened ToneStrings

  // ------------------------------------------------------------ incoming lines

  /** A request line is a tone of the call on a channel exactly when the
      request is a "chan.dtmf" whose "targetid" is the channel; what the client
      takes from it is what stands under "text". */
  lemma ToneLineExactly(m: Message, env: Env, id: Text, text: Text)
    requires Printable(m) && Built(m) && m.kind == Request && Sane(env) && Carried(m)
    ensures ParseLine(FormatMessage(m), env).Ok?
    ensures var got, attrs := ParseLine(FormatMessage(m), env).value, m.attrs.value;
      && got.mid == m.mid
      && (IsTone(got, Some(id)) <==> m.name == Some(Ascii("chan.dtmf")) && Attr(Ascii("targetid"), id) in attrs)
      && (ToneText(got) == Some(text) <==> Attr(Ascii("text"), text) in attrs)
      && (ToneText(got) == None <==> forall a <- attrs :: a.key != Ascii("text"))
  {
    RequestRoundTripExactly(m, env);
    GetExactly(m.attrs.value, Ascii("targetid"), id);
    GetExactly(m.attrs.value, Ascii("text"), text);
    hide FormatMessage, ParseLine, Carried;
  }

  /** So the line is acknowledged: true, under its own id, when it is a tone of
      the call, and then its text is what `await_dtmf` gives; else false. */
  lemma ToneLineIsServed(m: Message, env: Env, id: Text, text: Text, rest: seq<Message>)
    requires Printable(m) && Built(m) && m.kind == Request && Sane(env) && Carried(m)
    ensures ParseLine(FormatMessage(m), env).Ok?
    ensures var got, attrs := ParseLine(FormatMessage(m), env).value, m.attrs.value;
      var es, o := Drain(ForTone(Some(id)), Some(id), [got] + rest), DrainOutcome(ForTone(Some(id)), [got] + rest);
      var tone := m.name == Some(Ascii("chan.dtmf")) && Attr(Ascii("targetid"), id) in attrs;
      && (tone <==> o == Stopped(got) && es == [Delivered(got, Some(id))])
      && Output(es) != [] && Replies(Output(es)[0], m.mid, tone)
      && (Attr(Ascii("text"), text) in attrs ==> ToneText(got) == Some(text))
  {
    ToneLineExactly(m, env, id, text);
    var got := ParseLine(FormatMessage(m), env).value;
    RequestRoundTripExactly(m, env);
    hide FormatMessage, ParseLine, Carried, IsTone, ToneText, FormatResponse, Replies;
    FirstServed(got, Some(id), rest);
    ResponseReplies(got, IsTone(got, Some(id)));
  }

  /** The first message of a queue in a wait for a tone. */
  lemma FirstServed(m: Message, id: Channel, rest: seq<Message>)
    requires m.kind == Request && Printable(m)
    ensures var es, o := Drain(ForTone(id), id, [m] + rest), DrainOutcome(ForTone(id), [m] + rest);
      && (IsTone(m, id) <==> o == Stopped(m) && es == [Delivered(m, id)])
      && Output(es) != [] && Output(es)[0] == FormatResponse(m, IsTone(m, id))
  {
    var ms := [m] + rest;
    assert ms[0] == m && ms[1..] == rest;
    hide FormatResponse;
    var more := if IsTone(m, id) then [] else Drain(ForTone(id), id, rest);
    OutputFirst(EventOf(ForTone(id), id, m), more);
    assert Drain(ForTone(id), id, ms) == [EventOf(ForTone(id), id, m)] + more;
  }

  /** A watch notice ends the wait for the answer, or for the hangup, exactly
      when it is called so and its "id" is the channel. */
  lemma NoticeLineExactly(flag: Text, name: Text, ret: Text, attrs: seq<Attr>, env: Env, id: Text)
    requires Free(flag, COLON) && attrs != [] && PlainKeys(attrs) && DistinctKeys(attrs)
    ensures var line := Line(Ascii("%%<message"), [], flag, Esc(name), Esc(ret), Body(attrs));
      && ParseLine(line, env).Ok?
      && var got, has := ParseLine(line, env).value, Attr(Ascii("id"), id) in TrimLast(attrs);
      && (Meets(ForAnswered(Some(id)), got) <==> name == Ascii("call.answered") && has)
      && (Meets(ForHangup(Some(id)), got) <==> name == Ascii("chan.hangup") && has)
  {
    WatchNoticeArrives(flag, name, ret, attrs, env);
    SameKeys(attrs, TrimLast(attrs));
    GetExactly(TrimLast(attrs), Ascii("id"), id);
    hide ParseLine, Line, TrimLast;
  }

  /** A request line without attributes is taken for a message that cannot be
      answered: every wait that it does not end by its id raises over it. */
  lemma BareRequestRaises(mid: Text, time: Text, name: Text, env: Env, w: Wait)
    requires Free(mid, COLON) && Free(mid, PERCENT) && mid != [] && Free(time, COLON) && time != []
    requires RStrip(Esc(name)) == Esc(name)
    ensures var line := Field(Ascii("%%>message"), Field(mid, Field(time, Esc(name))));
      && ParseLine(line, env) == Ok(Message(mid, time, Some(name), None, None, Request))
      && (w != ForReply(mid) ==> Judge(w, ParseLine(line, env).value) == Fail)
  {
    hide Field, SplitN, RStrip, Esc, Unescaped, Free;
    var line := Field(mid, Field(time, Esc(name)));
    DispatchTagged(line, env);
    StripField(mid, Field(time, Esc(name)));
    StripField(time, Esc(name));
    EscIsFree(name);
    CutField(mid, Field(time, Esc(name)), 4);
    CutField(time, Esc(name), 3);
    NoCut(Esc(name), COLON, 2);
    PlainUnescapes(mid);
    hide ParseLine;
  }

  // -------------------------------------------------------- requests of our own

  /** A clock and a suffix that make an id which the line can carry. */
  predicate Stamps(env: Env) {
    Sane(env) && Free(env.now, PERCENT) && Free(env.suffix, COLON) && Free(env.suffix, PERCENT)
  }

  lemma OwnRequestArrives(env: Env, name: Text, attrs: seq<Attr>, env': Env)
    requires Stamps(env) && attrs != [] && PlainKeys(attrs) && DistinctKeys(attrs)
    ensures ParseLine(FormatMessage(OwnRequest(env, name, attrs)), env')
         == Ok(Message(env.now + env.suffix, env.now, Some(name), Some([]), Some(TrimLast(attrs)), Request))
  {
    hide FormatMessage, ParseLine, PlainKeys, DistinctKeys, TrimLast;
    assert forall c <- env.now + env.suffix :: c in env.now || c in env.suffix;
    RequestArrives(OwnRequest(env, name, attrs), env');
  }

  lemma ThreeKeys(a: Attr, b: Attr, c: Attr)
    requires a.key != b.key && a.key != c.key && b.key != c.key
    ensures DistinctKeys([a, b, c])
    ensures Get([a, b, c], a.key) == Some(a.value) && Get([a, b, c], b.key) == Some(b.value)
    ensures Get([a, b, c], c.key) == Some(c.value)
  {
    assert [a, b, c][1..] == [b, c] && [b, c][1..] == [c] && [c][1..] == [];
    NoKeys(c.key);
    HasKeyCons([c], b.key);
    NoKeys(b.key);
    HasKeyCons([b, c], a.key);
    HasKeyCons([c], a.key);
    NoKeys(a.key);
    GetExactly([a, b, c], a.key, a.value);
    GetExactly([a, b, c], b.key, b.value);
    GetExactly([a, b, c], c.key, c.value);
  }

  /** A request of our own with three attributes, as it arrives. */
  lemma ThreeArrive(env: Env, name: Text, a: Attr, b: Attr, c: Attr, env': Env)
    requires Stamps(env) && a.key != b.key && a.key != c.key && b.key != c.key
    requires PlainKey(a.key) && PlainKey(b.key) && PlainKey(c.key)
    ensures var r := ParseLine(FormatMessage(OwnRequest(env, name, [a, b, c])), env');
      && r.Ok? && r.value.kind == Request && r.value.mid == env.now + env.suffix && r.value.name == Some(name)
      && r.value.attrs.Some?
      && Get(r.value.attrs.value, a.key) == Some(a.value) && Get(r.value.attrs.value, b.key) == Some(b.value)
      && Get(r.value.attrs.value, c.key) == Some(Trim(c.value))
  {
    var d := c.(value := Trim(c.value));
    ThreeKeys(a, b, c);
    ThreeKeys(a, b, d);
    assert TrimLast([a, b, c]) == [a, b, d];
    hide ParseLine, FormatMessage, Get, TrimLast, PlainKey, Stamps, DistinctKeys;
    OwnRequestArrives(env, name, [a, b, c], env');
  }

  /** The keys our own requests use. */
  lemma OwnKeys()
    ensures PlainKey(Ascii("callto")) && PlainKey(Ascii("caller")) && PlainKey(Ascii("target"))
    ensures PlainKey(Ascii("message")) && PlainKey(Ascii("id")) && PlainKey(Ascii("consumer"))
    ensures PlainKey(Ascii("targetid")) && PlainKey(Ascii("text")) && PlainKey(Ascii("duration"))
    ensures Ascii("callto") != Ascii("caller") && Ascii("callto") != Ascii("target") && Ascii("caller") != Ascii("target")
    ensures Ascii("targetid") != Ascii("duration")
    ensures |Ascii("message")| == 7 && |Ascii("id")| == 2 && |Ascii("consumer")| == 8
    ensures |Ascii("targetid")| == |Ascii("duration")| == 8 && |Ascii("text")| == 4
  {
    assert Ascii("callto")[4] != Ascii("caller")[4] && Ascii("callto")[0] != Ascii("target")[0];
    assert Ascii("caller")[0] != Ascii("target")[0] && Ascii("targetid")[0] != Ascii("duration")[0];
  }

  /** `call` asks for a "call.execute" to the callee, in the name of the user. */
  lemma RingSays(env: Env, username: Text, callee: Text, env': Env)
    requires Stamps(env)
    ensures var r := ParseLine(FormatMessage(RingRequest(env, username, callee)), env');
      && r.Ok? && r.value.kind == Request && r.value.mid == env.now + env.suffix
      && r.value.name == Some(Ascii("call.execute")) && r.value.attrs.Some?
      && Get(r.value.attrs.value, Ascii("callto")) == Some(Ascii("dumb/"))
      && Get(r.value.attrs.value, Ascii("caller")) == Some(username)
      && Get(r.value.attrs.value, Ascii("target")) == Some(Trim(callee))
  {
    OwnKeys();
    hide ParseLine, FormatMessage, Get, Ascii, PlainKey, OwnRequest;
    var attrs := RingAttrs(username, callee);
    ThreeArrive(env, RingName(), attrs[0], attrs[1], attrs[2], env');
  }

  /** And then to attach a recorder to its own channel. */
  lemma AttachSays(env: Env, id: Channel, recfile: Text, env': Env)
    requires Stamps(env)
    ensures var r := ParseLine(FormatMessage(AttachRequest(env, id, recfile)), env');
      && r.Ok? && r.value.kind == Request && r.value.mid == env.now + env.suffix
      && r.value.name == Some(Ascii("chan.masquerade")) && r.value.attrs.Some?
      && Get(r.value.attrs.value, Ascii("message")) == Some(Ascii("chan.attach"))
      && Get(r.value.attrs.value, Ascii("id")) == Some(if id.Some? then id.value else Ascii("None"))
      && Get(r.value.attrs.value, Ascii("consumer")) == Some(Trim(Ascii("wave/record/") + recfile))
  {
    OwnKeys();
    hide ParseLine, FormatMessage, Get, Ascii, PlainKey, OwnRequest;
    var attrs := AttachAttrs(id, recfile);
    ThreeArrive(env, AttachName(), attrs[0], attrs[1], attrs[2], env');
  }

  /** Each line of `send_dtmf` asks for its own character, on the target channel. */
  lemma ToneSays(dtmf: Text, envs: seq<Env>, targetid: Channel, i: nat, env': Env)
    requires i < |dtmf| == |envs| && Stamps(envs[i])
    ensures var r := ParseLine(ToneLines(dtmf, envs, targetid)[i], env');
      && r.Ok? && r.value.kind == Request && r.value.mid == envs[i].now + envs[i].suffix
      && r.value.name == Some(Ascii("chan.dtmf")) && r.value.attrs.Some?
      && Get(r.value.attrs.value, Ascii("targetid")) == Some(if targetid.Some? then targetid.value else Ascii("None"))
      && Get(r.value.attrs.value, Ascii("text")) == Some([dtmf[i]])
      && Get(r.value.attrs.value, Ascii("duration")) == Some(Ascii("2000"))
  {
    OwnKeys();
    assert Trim(Ascii("2000")) == Ascii("2000") by { assert Ascii("2000")[3] == 48; }
    ToneLineAt(dtmf, envs, targetid, i);
    hide ParseLine, FormatMessage, Get, Ascii, PlainKey, OwnRequest, ToneLines, Trim;
    var attrs := ToneAttrs(targetid, dtmf[i]);
    ThreeArrive(envs[i], DtmfName(), attrs[0], attrs[1], attrs[2], env');
  }

  /** `hangup` asks to drop the target channel. */
  lemma DropSays(env: Env, targetid: Channel, env': Env)
    requires Stamps(env)
    ensures var r := ParseLine(FormatMessage(OwnRequest(env, Ascii("call.drop"), [Attr(IdKey(), PyText(targetid))])), env');
      && r.Ok? && r.value.kind == Request && r.value.name == Some(Ascii("call.drop")) && r.value.attrs.Some?
      && Get(r.value.attrs.value, Ascii("id")) == Some(Trim(if targetid.Some? then targetid.value else Ascii("None")))
  {
    var attrs := [Attr(IdKey(), PyText(targetid))];
    assert attrs[1..] == [];
    OwnRequestArrives(env, Ascii("call.drop"), attrs, env');
    hide ParseLine, FormatMessage;
  }
}
