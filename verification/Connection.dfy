/**
The ExtModule client of the checker (YATEConnection in
helplinechecker_manual.py): every wait drains one queue of incoming messages
and serves whatever it is not waiting for.
*/
module Connection {
  import opened Wrappers
  import opened Escape
  import opened Wire
  import opened Sequences

  function DtmfName(): Text { Ascii("chan.dtmf") }
  function HangupName(): Text { Ascii("chan.hangup") }
  function AnsweredName(): Text { Ascii("call.answered") }
  function TargetKey(): Text { Ascii("targetid") }
  function IdKey(): Text { Ascii("id") }
  function TextKey(): Text { Ascii("text") }

  /** A channel id: what `m["id"]` gave, which may be None. */
  type Channel = Option<Text>

  /** `m._name == name and m[key] == channel` for a message of this kind. */
  predicate Announces(m: Message, kind: Kind, name: Text, key: Text, channel: Channel) {
    m.kind == kind && m.name == Some(name) && m.attrs.Some? && Get(m.attrs.value, key) == channel
  }

  /** A DTMF of the call on this channel. */
  predicate IsTone(m: Message, id: Channel) {
    Announces(m, Request, DtmfName(), TargetKey(), id)
  }

  /** A request that cannot be answered: formatting the reply, or looking at
      its attributes, raises. */
  predicate Unanswerable(m: Message) {
    m.kind == Request && !Printable(m)
  }

  // ------------------------------------------------- what happens to a message

  /** What a wait is for. */
  datatype Wait =
    | ForReply(mid: Text)
    | ForAnswered(channel: Channel)
    | ForHangup(channel: Channel)
    | ForTone(channel: Channel)
    | ForNothing       // `sleep`: only serves

  datatype Verdict = Stop | Serve | Fail

  /** `_handle_message` raises only on a request that cannot be answered. */
  function ServeVerdict(m: Message): Verdict {
    if Unanswerable(m) then Fail else Serve
  }

  /** The test `kind and name and m[key] == channel`, then `_handle_message`;
      `m[key]` raises when there is no dictionary. */
  function AnnouncementVerdict(m: Message, kind: Kind, name: Text, key: Text, channel: Channel): Verdict {
    if m.kind == kind && m.name == Some(name) && m.attrs.None? then Fail
    else if Announces(m, kind, name, key, channel) then Stop
    else ServeVerdict(m)
  }

  function Judge(w: Wait, m: Message): Verdict {
    match w
    case ForReply(mid) => if m.mid == mid then Stop else ServeVerdict(m)
    case ForAnswered(c) => AnnouncementVerdict(m, Watch, AnsweredName(), IdKey(), c)
    case ForHangup(c) => AnnouncementVerdict(m, Watch, HangupName(), IdKey(), c)
    case ForTone(c) => AnnouncementVerdict(m, Request, DtmfName(), TargetKey(), c)
    case ForNothing => ServeVerdict(m)
  }

  /** What happened, in order: lines sent on our own account, and for every
      message taken from the queue what became of it, under the channel id
      that was current at the time. */
  datatype Event =
    | Sent(line: Text)
    | Served(m: Message, id: Channel)   // given to `_handle_message`
    | Delivered(m: Message, id: Channel)// the tone a wait returned
    | Observed(m: Message, id: Channel) // the watch notice that ended a wait
    | Matched(m: Message, id: Channel)  // taken for the reply that was awaited
    | Failed(m: Message, id: Channel)   // an exception was raised over it

  function EventOf(w: Wait, id: Channel, m: Message): Event {
    match Judge(w, m)
    case Fail => Failed(m, id)
    case Serve => Served(m, id)
    case Stop =>
      match w
      case ForReply(_) => Matched(m, id)
      case ForTone(_) => Delivered(m, id)
      case _ => Observed(m, id)
  }

  predicate IsReplied(e: Event) {
    (e.Served? && e.m.kind == Request) || e.Delivered?
  }

  /** The answer line: true for the tones of this call, false for all others. */
  function ReplyLine(m: Message, id: Channel): Text
    requires Printable(m)
  {
    FormatResponse(m, IsTone(m, id))
  }

  /** The lines an event writes. */
  function Lines(e: Event): seq<Text> {
    match e
    case Sent(line) => [line]
    case Served(m, id) => if m.kind == Request && Printable(m) then [ReplyLine(m, id)] else []
    case Delivered(m, id) => if Printable(m) then [ReplyLine(m, id)] else []
    case _ => []
  }

  function Output(es: seq<Event>): seq<Text> {
    if es == [] then [] else Output(es[..|es| - 1]) + Lines(es[|es| - 1])
  }

  function Consumed(es: seq<Event>): seq<Message> {
    if es == [] then []
    else
      var rest, e := Consumed(es[..|es| - 1]), es[|es| - 1];
      if e.Sent? then rest else rest + [e.m]
  }

  /** An event as the loops produce it; `awaited` are the ids of the requests
      we have waited on. */
  predicate Legal(e: Event, awaited: set<Text>) {
    match e
    case Sent(line) => RequestTag() <= line
    case Served(m, _) => !Unanswerable(m)
    case Delivered(m, id) => IsTone(m, id)
    case Observed(m, _) => m.kind == Watch
    case Matched(m, _) => m.mid in awaited
    case Failed(m, _) => Unanswerable(m) || (m.kind == Watch && m.attrs.None?)
  }

  predicate AllLegal(es: seq<Event>, awaited: set<Text>) {
    forall i :: 0 <= i < |es| ==> Legal(es[i], awaited)
  }

  /** How a wait ends: with the message it was for, with the queue drained
      (the original blocks there), or with an exception. */
  datatype Outcome = Stopped(m: Message) | Blocked | Raised

  /** The events of one wait over a queue. */
  function Drain(w: Wait, id: Channel, ms: seq<Message>): (es: seq<Event>)
    ensures |es| <= |ms|
    ensures ms != [] ==> |es| > 0
  {
    if ms == [] then []
    else
      [EventOf(w, id, ms[0])] + if Judge(w, ms[0]) == Serve then Drain(w, id, ms[1..]) else []
  }

  function DrainOutcome(w: Wait, ms: seq<Message>): Outcome {
    if ms == [] then Blocked
    else match Judge(w, ms[0])
      case Stop => Stopped(ms[0])
      case Fail => Raised
      case Serve => DrainOutcome(w, ms[1..])
  }

  // ------------------------------------------------------------- one more event

  lemma OutputStep(es: seq<Event>, e: Event)
    ensures Output(es + [e]) == Output(es) + Lines(e)
    ensures Consumed(es + [e]) == if e.Sent? then Consumed(es) else Consumed(es) + [e.m]
  {
    assert (es + [e])[..|es|] == es;
  }

  lemma LegalStep(es: seq<Event>, e: Event, awaited: set<Text>)
    requires AllLegal(es, awaited) && Legal(e, awaited)
    ensures AllLegal(es + [e], awaited)
  {
  }

  lemma LegalGrows(es: seq<Event>, awaited: set<Text>, more: set<Text>)
    requires AllLegal(es, awaited) && awaited <= more
    ensures AllLegal(es, more)
  {
    forall i | 0 <= i < |es|
      ensures Legal(es[i], more)
    {
      assert Legal(es[i], awaited);
    }
  }

  lemma EventIsLegal(w: Wait, id: Channel, m: Message, awaited: set<Text>)
    requires w.ForReply? ==> w.mid in awaited
    requires w.ForTone? ==> w.channel == id
    ensures var e := EventOf(w, id, m); !e.Sent? && e.m == m && Legal(e, awaited)
  {
  }

  /** The queue is a suffix of what it was, as long as it should be after so many events. */
  ghost predicate Left(queue: seq<Message>, q: seq<Message>, start: seq<Event>, past: seq<Event>) {
    |past| + |q| == |start| + |queue| && |q| <= |queue| && q == queue[|queue| - |q|..]
  }

  lemma LeftAtStart(queue: seq<Message>, start: seq<Event>)
    ensures Left(queue, queue, start, start)
  {
  }

  lemma LeftWait(queue: seq<Message>, ms: seq<Message>, start: seq<Event>, past: seq<Event>, es: seq<Event>)
    requires Left(queue, ms, start, past) && |es| <= |ms|
    ensures Left(queue, ms[|es|..], start, past + es)
  {
  }

  lemma LeftAfterWait(queue: seq<Message>, q: seq<Message>, start: seq<Event>, past: seq<Event>, all: seq<Event>)
    requires Left(queue, q, start, past)
    ensures past == start + all ==> |all| <= |queue| && q == queue[|all|..]
  {
  }

  lemma LeftStep(queue: seq<Message>, q: seq<Message>, start: seq<Event>, past: seq<Event>, e: Event)
    requires Left(queue, q, start, past) && q != []
    ensures Left(queue, q[1..], start, past + [e])
  {
  }

  lemma LeftAfter(queue: seq<Message>, q: seq<Message>, start: seq<Event>, past: seq<Event>, all: seq<Event>)
    requires Left(queue, q, start, past) && past == start + all
    ensures |all| <= |queue| && q == queue[|all|..]
  {
  }

  // ------------------------------------------------------------ our own requests

  /** `YATEMessage(name=name, attrs=attrs)`: id and timestamp are made up. */
  function OwnRequest(env: Env, name: Text, attrs: seq<Attr>): (m: Message)
    ensures Printable(m)
  {
    NewMessage(env, [], [], Some(name), None, Some(attrs), Request)
  }

  /** `str(value)` of a channel id in a dictionary of our own. */
  function PyText(channel: Channel): Text {
    if channel.Some? then channel.value else Ascii("None")
  }

  function RingName(): Text { Ascii("call.execute") }
  function AttachName(): Text { Ascii("chan.masquerade") }

  function RingAttrs(username: Text, callee: Text): seq<Attr> {
    [Attr(Ascii("callto"), Ascii("dumb/")), Attr(Ascii("caller"), username), Attr(Ascii("target"), callee)]
  }

  function RingRequest(env: Env, username: Text, callee: Text): Message {
    OwnRequest(env, RingName(), RingAttrs(username, callee))
  }

  function AttachAttrs(id: Channel, recfile: Text): seq<Attr> {
    [Attr(Ascii("message"), Ascii("chan.attach")), Attr(IdKey(), PyText(id)),
     Attr(Ascii("consumer"), Ascii("wave/record/") + recfile)]
  }

  function AttachRequest(env: Env, id: Channel, recfile: Text): Message {
    OwnRequest(env, AttachName(), AttachAttrs(id, recfile))
  }

  function ToneAttrs(targetid: Channel, c: Code): seq<Attr> {
    [Attr(TargetKey(), PyText(targetid)), Attr(TextKey(), [c]), Attr(Ascii("duration"), Ascii("2000"))]
  }

  /** The lines that ask for the tones of a string, in order. */
  function ToneLines(dtmf: Text, envs: seq<Env>, targetid: Channel): (lines: seq<Text>)
    requires |envs| == |dtmf|
    ensures |lines| == |dtmf|
  {
    if dtmf == [] then []
    else
      var n := |dtmf| - 1;
      ToneLines(dtmf[..n], envs[..n], targetid)
        + [FormatMessage(OwnRequest(envs[n], DtmfName(), ToneAttrs(targetid, dtmf[n])))]
  }

  /** What sending these lines one by one does, when after each the pause
      serves the next messages, or as many as there are. */
  function SendEvents(lines: seq<Text>, pauses: seq<nat>, id: Channel, ms: seq<Message>): (es: seq<Event>)
    requires |lines| == |pauses|
  {
    if lines == [] then []
    else
      var head := ms[..Min(pauses[0], |ms|)];
      var served := Drain(ForNothing, id, head);
      [Sent(lines[0])] + served
        + if DrainOutcome(ForNothing, head) == Blocked then SendEvents(lines[1..], pauses[1..], id, ms[|served|..]) else []
  }

  /** No exception is raised in any of the pauses. */
  predicate SendOk(pauses: seq<nat>, id: Channel, ms: seq<Message>) {
    pauses == []
    || (var head := ms[..Min(pauses[0], |ms|)];
        DrainOutcome(ForNothing, head) == Blocked
        && SendOk(pauses[1..], id, ms[|Drain(ForNothing, id, head)|..]))
  }

  lemma SendStep(lines: seq<Text>, pauses: seq<nat>, id: Channel, ms: seq<Message>, i: nat, past: seq<Event>)
    requires i < |lines| == |pauses|
    ensures var head := ms[..Min(pauses[i], |ms|)];
      var after := past + [Sent(lines[i])] + Drain(ForNothing, id, head);
      past + SendEvents(lines[i..], pauses[i..], id, ms) ==
        if DrainOutcome(ForNothing, head) == Blocked
        then after + SendEvents(lines[i + 1..], pauses[i + 1..], id, ms[|Drain(ForNothing, id, head)|..])
        else after
    ensures var head := ms[..Min(pauses[i], |ms|)];
      SendOk(pauses[i..], id, ms) <==>
        && DrainOutcome(ForNothing, head) == Blocked
        && SendOk(pauses[i + 1..], id, ms[|Drain(ForNothing, id, head)|..])
  {
    hide Drain, DrainOutcome;
    SuffixHead(lines, i);
    SuffixHead(pauses, i);
    var served := Drain(ForNothing, id, ms[..Min(pauses[i], |ms|)]);
    Assoc(past, [Sent(lines[i])], served);
    Assoc(past, [Sent(lines[i])] + served, SendEvents(lines[i + 1..], pauses[i + 1..], id, ms[|served|..]));
    Unit([Sent(lines[i])] + served);
  }

  lemma SendNothing(lines: seq<Text>, pauses: seq<nat>, id: Channel, ms: seq<Message>, past: seq<Event>)
    requires |lines| == |pauses|
    ensures past + SendEvents(lines[|lines|..], pauses[|lines|..], id, ms) == past
    ensures SendOk(pauses[|lines|..], id, ms)
    ensures lines[0..] == lines && pauses[0..] == pauses
  {
    Unit(past);
  }

  /** The lines of our own among the events. */
  function Requested(es: seq<Event>): seq<Text> {
    if es == [] then []
    else
      var rest, e := Requested(es[..|es| - 1]), es[|es| - 1];
      if e.Sent? then rest + [e.line] else rest
  }

  lemma ToneLinesStep(dtmf: Text, envs: seq<Env>, targetid: Channel, i: nat)
    requires i < |dtmf| == |envs|
    ensures ToneLines(dtmf[..i + 1], envs[..i + 1], targetid)
      == ToneLines(dtmf[..i], envs[..i], targetid)
         + [FormatMessage(OwnRequest(envs[i], DtmfName(), ToneAttrs(targetid, dtmf[i])))]
  {
    hide FormatMessage, OwnRequest, ToneAttrs;
    assert dtmf[..i + 1][..i] == dtmf[..i] && envs[..i + 1][..i] == envs[..i];
  }

  lemma {:induction false} ToneLinesPrefix(dtmf: Text, envs: seq<Env>, targetid: Channel, i: nat)
    requires i <= |dtmf| == |envs|
    ensures ToneLines(dtmf[..i], envs[..i], targetid) <= ToneLines(dtmf, envs, targetid)
    decreases |dtmf| - i
  {
    hide ToneLines;
    if i == |dtmf| {
      assert dtmf[..i] == dtmf && envs[..i] == envs;
    } else {
      ToneLinesStep(dtmf, envs, targetid, i);
      ToneLinesPrefix(dtmf, envs, targetid, i + 1);
    }
  }

  /** The i-th of these lines, and the lines up to it. */
  lemma ToneLineAt(dtmf: Text, envs: seq<Env>, targetid: Channel, i: nat)
    requires i < |dtmf| == |envs|
    ensures var lines := ToneLines(dtmf, envs, targetid);
      var line := FormatMessage(OwnRequest(envs[i], DtmfName(), ToneAttrs(targetid, dtmf[i])));
      && lines[i] == line
      && ToneLines(dtmf[..i + 1], envs[..i + 1], targetid) == ToneLines(dtmf[..i], envs[..i], targetid) + [line]
      && ToneLines(dtmf[..i + 1], envs[..i + 1], targetid) <= lines
  {
    hide FormatMessage, OwnRequest, ToneAttrs, ToneLines;
    ToneLinesStep(dtmf, envs, targetid, i);
    ToneLinesPrefix(dtmf, envs, targetid, i + 1);
  }

  lemma {:induction false} NoneRequested(es: seq<Event>, w: Wait, id: Channel, ms: seq<Message>)
    ensures Requested(es + Drain(w, id, ms)) == Requested(es)
    decreases |ms|
  {
    if ms == [] {
      Unit(es);
      return;
    }
    hide EventOf, Judge;
    var e := EventOf(w, id, ms[0]);
    DrainStep(w, id, ms, es);
    assert (es + [e])[..|es|] == es && !e.Sent? by { EventIsLegalKind(w, id, ms[0]); }
    if Judge(w, ms[0]) == Serve {
      NoneRequested(es + [e], w, id, ms[1..]);
    }
  }

  lemma EventIsLegalKind(w: Wait, id: Channel, m: Message)
    ensures !EventOf(w, id, m).Sent?
  {
  }

  lemma RequestedStep(start: seq<Event>, before: seq<Event>, line: Text, w: Wait, id: Channel, ms: seq<Message>)
    requires start <= before
    ensures var after := before + ([Sent(line)] + Drain(w, id, ms));
      start <= after && Requested(after[|start|..]) == Requested(before[|start|..]) + [line]
  {
    hide Drain;
    var es, d := before[|start|..], Drain(w, id, ms);
    var after := before + ([Sent(line)] + d);
    assert after[|start|..] == es + [Sent(line)] + d;
    NoneRequested(es + [Sent(line)], w, id, ms);
    assert (es + [Sent(line)])[..|es|] == es;
  }

  lemma OwnLineIsTagged(m: Message)
    requires Printable(m)
    ensures RequestTag() <= FormatMessage(m)
  {
  }

  function Min(a: nat, b: nat): nat {
    if a < b then a else b
  }

  // --------------------------------------------------------- strings of tones

  /** How `recv_dtmf_str` ends: the string, the TIMEOUT of a tone without a
      text, a drained queue, or an exception. */
  datatype Received = Complete(text: Text) | TimedOut | Starved | Broken

  function ToneText(m: Message): Option<Text> {
    if m.attrs.Some? then Get(m.attrs.value, TextKey()) else None
  }

  function RecvEvents(id: Channel, ms: seq<Message>, n: nat): (es: seq<Event>)
    ensures |es| <= |ms|
    decreases n
  {
    if n == 0 then []
    else
      var es, o := Drain(ForTone(id), id, ms), DrainOutcome(ForTone(id), ms);
      if o.Stopped? && ToneText(o.m).Some? then es + RecvEvents(id, ms[|es|..], n - 1) else es
  }

  function RecvResult(ms: seq<Message>, id: Channel, n: nat, sofar: Text): Received
    decreases n
  {
    if n == 0 then Complete(sofar)
    else
      var es, o := Drain(ForTone(id), id, ms), DrainOutcome(ForTone(id), ms);
      match o
      case Blocked => Starved
      case Raised => Broken
      case Stopped(m) =>
        if ToneText(m).None? then TimedOut
        else RecvResult(ms[|es|..], id, n - 1, sofar + ToneText(m).value)
  }

  lemma RecvStep(id: Channel, ms: seq<Message>, n: nat, past: seq<Event>, sofar: Text)
    requires 0 < n
    ensures var es, o := Drain(ForTone(id), id, ms), DrainOutcome(ForTone(id), ms);
      if o.Stopped? && ToneText(o.m).Some? then
        && past + RecvEvents(id, ms, n) == past + es + RecvEvents(id, ms[|es|..], n - 1)
        && RecvResult(ms, id, n, sofar) == RecvResult(ms[|es|..], id, n - 1, sofar + ToneText(o.m).value)
      else
        && past + RecvEvents(id, ms, n) == past + es
        && RecvResult(ms, id, n, sofar) == if o == Blocked then Starved else if o == Raised then Broken else TimedOut
  {
    hide Drain, DrainOutcome, ToneText;
    var es, o := Drain(ForTone(id), id, ms), DrainOutcome(ForTone(id), ms);
    if o.Stopped? && ToneText(o.m).Some? {
      Assoc(past, es, RecvEvents(id, ms[|es|..], n - 1));
    }
  }

  lemma {:induction false} ToneHasAttrs(w: Wait, ms: seq<Message>)
    requires w.ForTone?
    ensures var o := DrainOutcome(w, ms); o.Stopped? ==> IsTone(o.m, w.channel) && o.m in ms
  {
    if ms != [] && Judge(w, ms[0]) == Serve {
      ToneHasAttrs(w, ms[1..]);
    }
  }

  lemma ToneSpeaks(w: Wait, ms: seq<Message>)
    requires w.ForTone?
    ensures var o := DrainOutcome(w, ms); o.Stopped? ==> o.m.attrs.Some? && ToneText(o.m) == Get(o.m.attrs.value, TextKey())
  {
    ToneHasAttrs(w, ms);
  }

  lemma NoTones(id: Channel, ms: seq<Message>, past: seq<Event>, sofar: Text)
    ensures past + RecvEvents(id, ms, 0) == past && RecvResult(ms, id, 0, sofar) == Complete(sofar)
  {
  }

  // -------------------------------------------------------------- the client

  class YATEConnection {
    var messages: seq<Message>   // the queue the reader thread fills
    var out: seq<Text>           // the lines written to the socket
    var id: Channel
    var targetid: Channel

    ghost const arrived: seq<Message>
    ghost var past: seq<Event>
    ghost var awaited: set<Text>

    /** The output is what the past events write, every message that arrived
        was consumed by one of them or is still queued, in order. */
    ghost predicate Valid()
      reads this
    {
      && out == Output(past)
      && Consumed(past) + messages == arrived
      && AllLegal(past, awaited)
    }

    /** `incoming` is everything that will ever arrive. */
    constructor (incoming: seq<Message>, id: Channel)
      ensures Valid() && past == [] && awaited == {} && out == []
      ensures messages == arrived == incoming && this.id == id
    {
      messages, arrived, out, past, awaited := incoming, incoming, [], [], {};
      this.id, targetid := id, None;
    }

    method SendLine(line: Text)
      requires Valid() && RequestTag() <= line
      modifies this`out, this`past
      ensures Valid() && past == old(past) + [Sent(line)]
    {
      OutputStep(past, Sent(line));
      LegalStep(past, Sent(line), awaited);
      out := out + [line];
      past := past + [Sent(line)];
      assert Consumed(past) == old(Consumed(past));
    }

    /** `_handle_message`, for a message that was just taken from the queue. */
    method HandleMessage(m: Message) returns (ok: bool)
      modifies this`out
      ensures ok <==> !Unanswerable(m)
      ensures out == old(out) + if ok then Lines(Served(m, id)) else []
    {
      if m.kind == InstallResponse || m.kind == WatchResponse {
        ok := true;
      } else if m.kind == Request {
        var handled := false;
        if m.name == Some(DtmfName()) {
          if m.attrs.None? {
            return false;
          }
          if Get(m.attrs.value, TargetKey()) == id {
            handled := true;
          }
        }
        if !Printable(m) {
          return false;
        }
        out := out + [FormatResponse(m, handled)];
        ok := true;
      } else {
        ok := true;
      }
    }

    /** The loop of every wait: the state is what the events of the wait so far make of the old one. */
    ghost predicate Draining(w: Wait, start: seq<Event>, all: seq<Event>, queue: seq<Message>)
      reads this
    {
      && Valid()
      && past + Drain(w, id, messages) == start + all
      && DrainOutcome(w, messages) == DrainOutcome(w, queue)
      && Left(queue, messages, start, past)
    }

    /** The state after a wait: exactly its events happened, and exactly their
        messages left the queue. */
    ghost predicate Drained(w: Wait, start: seq<Event>, queue: seq<Message>)
      reads this
    {
      && Valid()
      && past == start + Drain(w, id, queue)
      && messages == queue[|Drain(w, id, queue)|..]
    }

    /** The first queued message becomes an event, once its lines are written. */
    ghost method Happen(w: Wait, q: seq<Message>, before: seq<Text>)
      requires q != [] && messages == q[1..]
      requires before == Output(past) && Consumed(past) + q == arrived && AllLegal(past, awaited)
      requires out == before + Lines(EventOf(w, id, q[0]))
      requires w.ForReply? ==> w.mid in awaited
      requires w.ForTone? ==> w.channel == id
      modifies this`past
      ensures Valid() && past == old(past) + [EventOf(w, id, q[0])]
    {
      hide Output, Consumed, Lines, Legal, AllLegal, EventOf;
      var e := EventOf(w, id, q[0]);
      EventIsLegal(w, id, q[0], awaited);
      OutputStep(past, e);
      LegalStep(past, e, awaited);
      assert [q[0]] + messages == q;
      assert Consumed(past) + [q[0]] + messages == Consumed(past) + ([q[0]] + messages);
      past := past + [e];
    }

    /** The same within a wait on this queue. */
    ghost method Account(w: Wait, start: seq<Event>, queue: seq<Message>, q: seq<Message>, before: seq<Text>)
      requires q != [] && messages == q[1..]
      requires before == Output(past) && Consumed(past) + q == arrived && AllLegal(past, awaited)
      requires past + Drain(w, id, q) == start + Drain(w, id, queue)
      requires DrainOutcome(w, q) == DrainOutcome(w, queue)
      requires Left(queue, q, start, past)
      requires out == before + Lines(EventOf(w, id, q[0]))
      requires w.ForReply? ==> w.mid in awaited
      requires w.ForTone? ==> w.channel == id
      modifies this`past
      ensures Judge(w, q[0]) == Serve ==> Draining(w, start, Drain(w, id, queue), queue)
      ensures Judge(w, q[0]) != Serve ==> Drained(w, start, queue)
      ensures Judge(w, q[0]) == Stop ==> DrainOutcome(w, queue) == Stopped(q[0])
      ensures Judge(w, q[0]) == Fail ==> DrainOutcome(w, queue) == Raised
    {
      hide Output, Consumed, Lines, Drain, Legal, AllLegal, EventOf, Judge, DrainOutcome, Left;
      DrainStep(w, id, q, past);
      LeftStep(queue, q, start, past, EventOf(w, id, q[0]));
      Happen(w, q, before);
      if Judge(w, q[0]) != Serve {
        LeftAfter(queue, messages, start, past, Drain(w, id, queue));
      }
    }

    /** `await_dtmf`: returns the next tone of this call; everything before it is served. */
    method AwaitDtmf() returns (o: Outcome)
      requires Valid()
      modifies this`messages, this`out, this`past
      ensures Drained(ForTone(id), old(past), old(messages))
      ensures o == DrainOutcome(ForTone(id), old(messages))
    {
      var w := ForTone(id);
      ghost var start, queue := past, messages;
      hide Output, Consumed, Drain, AllLegal, DrainOutcome, FormatResponse;
      NothingDrained(w, id, past);
      while messages != []
        invariant id == old(id) && Draining(w, start, Drain(w, id, queue), queue)
        decreases |messages|
      {
        var m := messages[0];
        ghost var q, before := messages, out;
        messages := messages[1..];
        if m.kind == Request && m.name == Some(DtmfName()) && m.attrs.None? {
          Account(w, start, queue, q, before);
          return Raised;
        }
        if IsTone(m, id) {
          out := out + [FormatResponse(m, true)];
          Account(w, start, queue, q, before);
          return Stopped(m);
        }
        var ok := HandleMessage(m);
        Account(w, start, queue, q, before);
        if !ok {
          return Raised;
        }
      }
      NothingDrained(w, id, past);
      LeftAfter(queue, messages, start, past, Drain(w, id, queue));
      return Blocked;
    }

    /** `await_disconnect`. */
    method AwaitDisconnect() returns (o: Outcome)
      requires Valid()
      modifies this`messages, this`out, this`past
      ensures Drained(ForHangup(id), old(past), old(messages))
      ensures o == DrainOutcome(ForHangup(id), old(messages))
    {
      o := AwaitNotice(ForHangup(id), HangupName(), id);
    }

    /** The two loops that wait for a watch notice about a channel: the hangup
        in `await_disconnect`, the answer in `call`. */
    method AwaitNotice(ghost w: Wait, name: Text, channel: Channel) returns (o: Outcome)
      requires Valid()
      requires (w == ForHangup(channel) && name == HangupName()) || (w == ForAnswered(channel) && name == AnsweredName())
      modifies this`messages, this`out, this`past
      ensures Drained(w, old(past), old(messages))
      ensures o == DrainOutcome(w, old(messages))
    {
      ghost var start, queue := past, messages;
      hide Output, Consumed, Drain, AllLegal, DrainOutcome, FormatResponse, HangupName, AnsweredName;
      NothingDrained(w, id, past);
      while messages != []
        invariant id == old(id) && Draining(w, start, Drain(w, id, queue), queue)
        decreases |messages|
      {
        var m := messages[0];
        ghost var q, before := messages, out;
        messages := messages[1..];
        if m.kind == Watch && m.name == Some(name) {
          if m.attrs.None? {
            Account(w, start, queue, q, before);
            return Raised;
          }
          if Get(m.attrs.value, IdKey()) == channel {
            Account(w, start, queue, q, before);
            return Stopped(m);
          }
        }
        var ok := HandleMessage(m);
        Account(w, start, queue, q, before);
        if !ok {
          return Raised;
        }
      }
      NothingDrained(w, id, past);
      LeftAfter(queue, messages, start, past, Drain(w, id, queue));
      return Blocked;
    }

    /** `msg`: sends a request under a new id and, when `sync`, waits for the
        message that carries that id, of whatever kind. */
    method Msg(env: Env, name: Text, attrs: seq<Attr>, sync: bool) returns (o: Option<Outcome>)
      requires Valid()
      modifies this`messages, this`out, this`past, this`awaited
      ensures var line := FormatMessage(OwnRequest(env, name, attrs));
        if sync then
          && Drained(ForReply(OwnRequest(env, name, attrs).mid), old(past) + [Sent(line)], old(messages))
          && o == Some(DrainOutcome(ForReply(OwnRequest(env, name, attrs).mid), old(messages)))
        else Valid() && past == old(past) + [Sent(line)] && messages == old(messages) && o == None
      ensures awaited == old(awaited) + if sync then {OwnRequest(env, name, attrs).mid} else {}
    {
      var own := OwnRequest(env, name, attrs);
      OwnLineIsTagged(own);
      hide Output, Consumed, Drain, AllLegal, DrainOutcome, FormatMessage, FormatResponse, OwnRequest, Left, Announces, AnnouncementVerdict;
      SendLine(FormatMessage(own));
      if !sync {
        return None;
      }
      LegalGrows(past, awaited, awaited + {own.mid});
      awaited := awaited + {own.mid};
      var reply := AwaitReply(own.mid);
      return Some(reply);
    }

    /** The loop of `msg`. */
    method AwaitReply(mid: Text) returns (o: Outcome)
      requires Valid() && mid in awaited
      modifies this`messages, this`out, this`past
      ensures Drained(ForReply(mid), old(past), old(messages))
      ensures o == DrainOutcome(ForReply(mid), old(messages))
    {
      hide Output, Consumed, Drain, AllLegal, DrainOutcome, FormatResponse, Left, Announces, AnnouncementVerdict;
      ghost var w := ForReply(mid);
      ghost var start, queue := past, messages;
      NothingDrained(w, id, past);
      LeftAtStart(queue, start);
      while messages != []
        invariant id == old(id) && Draining(w, start, Drain(w, id, queue), queue)
        decreases |messages|
      {
        var m := messages[0];
        ghost var q, before := messages, out;
        messages := messages[1..];
        if m.mid == mid {
          Account(w, start, queue, q, before);
          return Stopped(m);
        }
        var ok := HandleMessage(m);
        Account(w, start, queue, q, before);
        if !ok {
          return Raised;
        }
      }
      NothingDrained(w, id, past);
      LeftAfter(queue, messages, start, past, Drain(w, id, queue));
      return Blocked;
    }

    /** `sleep`: serves what arrives in the interval, here the next n messages
        (or as many as there are). */
    method Sleep(n: nat) returns (ok: bool)
      requires Valid()
      modifies this`messages, this`out, this`past
      ensures Valid()
      ensures var head := old(messages)[..Min(n, |old(messages)|)];
        && past == old(past) + Drain(ForNothing, id, head)
        && messages == old(messages)[|Drain(ForNothing, id, head)|..]
        && ok == (DrainOutcome(ForNothing, head) == Blocked)
    {
      hide Output, Consumed, Drain, AllLegal, DrainOutcome, FormatResponse, EventOf, Judge, Lines, Unanswerable, Legal;
      ghost var w := ForNothing;
      ghost var start, queue := past, messages;
      ghost var head := queue[..Min(n, |queue|)];
      var i := 0;
      assert head[0..] == head;
      while i < n && messages != []
        invariant i <= |head| && messages == queue[i..] && (messages != [] || i == |head|)
        invariant id == old(id) && Valid() && |past| == |start| + i
        invariant past + Drain(w, id, head[i..]) == start + Drain(w, id, head)
        invariant DrainOutcome(w, head[i..]) == DrainOutcome(w, head)
        decreases n - i
      {
        var m := messages[0];
        ghost var q, before := messages, out;
        messages := messages[1..];
        ghost var served := past;
        PauseEvent(id, m);
        var ok := HandleMessage(m);
        Happen(w, q, before);
        DrainStep(w, id, head[i..], served);
        assert head[i..][1..] == head[i + 1..];
        i := i + 1;
        if !ok {
          return false;
        }
      }
      NothingDrained(w, id, past);
      assert head[i..] == [];
      return true;
    }

    /** What is left of a string of n tones will complete its events. */
    ghost predicate Receiving(start: seq<Event>, queue: seq<Message>, n: nat, left: nat)
      reads this
    {
      && Valid() && Left(queue, messages, start, past)
      && past + RecvEvents(id, messages, left) == start + RecvEvents(id, queue, n)
    }

    /** Exactly the events of a string of n tones happened, and exactly their
        messages left the queue. */
    ghost predicate ReceivedAll(start: seq<Event>, queue: seq<Message>, n: nat)
      reads this
    {
      && Valid()
      && past == start + RecvEvents(id, queue, n)
      && messages == queue[|RecvEvents(id, queue, n)|..]
    }

    /** `recv_dtmf_str`: the texts of n tones, one wait after the other. */
    method RecvDtmfStr(n: nat) returns (r: Received)
      requires Valid()
      modifies this`messages, this`out, this`past
      ensures Valid()
      ensures past == old(past) + RecvEvents(id, old(messages), n)
      ensures messages == old(messages)[|RecvEvents(id, old(messages), n)|..]
      ensures r == RecvResult(old(messages), id, n, [])
    {
      r := RecvRounds(n, past, messages);
    }

    /** The loop of `recv_dtmf_str`. */
    method RecvRounds(n: nat, ghost start: seq<Event>, ghost queue: seq<Message>) returns (r: Received)
      requires Valid() && past == start && messages == queue
      modifies this`messages, this`out, this`past
      ensures ReceivedAll(start, queue, n)
      ensures r == RecvResult(queue, id, n, [])
    {
      hide YATEConnection.Valid, YATEConnection.Receiving, YATEConnection.ReceivedAll, RecvEvents, RecvResult;
      RecvFirst(start, queue, n);
      var received: Text := [];
      var i := 0;
      while i < n
        invariant i <= n && id == old(id) && Receiving(start, queue, n, n - i)
        invariant RecvResult(messages, id, n - i, received) == RecvResult(queue, id, n, [])
        decreases n - i
      {
        var text, failure := RecvOne(n - i, received, start, queue, n);
        if text.None? {
          return failure;
        }
        received := received + text.value;
        i := i + 1;
      }
      RecvLast(received, start, queue, n);
      return Complete(received);
    }

    lemma RecvFirst(start: seq<Event>, queue: seq<Message>, n: nat)
      requires Valid() && past == start && messages == queue
      ensures Receiving(start, queue, n, n)
    {
      hide YATEConnection.Valid, RecvEvents;
      LeftAtStart(queue, start);
    }

    lemma RecvLast(sofar: Text, start: seq<Event>, queue: seq<Message>, n: nat)
      requires Receiving(start, queue, n, 0)
      ensures ReceivedAll(start, queue, n) && RecvResult(messages, id, 0, sofar) == Complete(sofar)
    {
      hide YATEConnection.Valid;
      NoTones(id, messages, past, sofar);
      hide RecvEvents, RecvResult;
      LeftAfter(queue, messages, start, past, RecvEvents(id, queue, n));
    }

    /** One round of it: the text of the next tone, or how the read fails. */
    method RecvOne(left: nat, sofar: Text, ghost start: seq<Event>, ghost queue: seq<Message>, ghost n: nat)
      returns (text: Option<Text>, failure: Received)
      requires 0 < left && Receiving(start, queue, n, left)
      modifies this`messages, this`out, this`past
      ensures text.Some? ==>
        && Receiving(start, queue, n, left - 1)
        && RecvResult(messages, id, left - 1, sofar + text.value) == RecvResult(old(messages), id, left, sofar)
      ensures text.None? ==>
        ReceivedAll(start, queue, n) && failure == RecvResult(old(messages), id, left, sofar)
    {
      ghost var ms, before := messages, past;
      RecvStep(id, ms, left, before, sofar);
      hide Output, Consumed, Drain, AllLegal, DrainOutcome, RecvEvents, RecvResult, IsTone;
      var o := AwaitDtmf();
      ghost var es := Drain(ForTone(id), id, ms);
      LeftWait(queue, ms, start, before, es);
      LeftAfterWait(queue, messages, start, past, RecvEvents(id, queue, n));
      if o == Blocked {
        return None, Starved;
      }
      if o == Raised {
        return None, Broken;
      }
      ToneSpeaks(ForTone(id), ms);
      text := Get(o.m.attrs.value, TextKey());
      failure := TimedOut;
    }

    /** `call`: rings, takes both channel ids from the reply, waits for the
        answer and attaches the recorder. The tones that come in while the
        reply is awaited are judged under the old id, all others under the new. */
    method Call(ring: Env, attach: Env, username: Text, callee: Text, recfile: Text)
      returns (o: Outcome, ghost first: seq<Event>, ghost second: seq<Event>, ghost third: seq<Event>)
      requires Valid()
      modifies this
      ensures Valid()
      ensures past == old(past) + [Sent(FormatMessage(RingRequest(ring, username, callee)))] + first + second + third
      ensures first == Drain(ForReply(RingRequest(ring, username, callee).mid), old(id), old(messages))
      ensures o.Stopped? ==>
        var reply := DrainOutcome(ForReply(RingRequest(ring, username, callee).mid), old(messages));
        var rest := old(messages)[|first|..];
        && reply.Stopped? && reply.m.attrs.Some?
        && targetid == Get(reply.m.attrs.value, TargetKey()) && id == Get(reply.m.attrs.value, IdKey())
        && second == Drain(ForAnswered(targetid), id, rest) && DrainOutcome(ForAnswered(targetid), rest).Stopped?
        && var last := ForReply(AttachRequest(attach, id, recfile).mid);
           && third == [Sent(FormatMessage(AttachRequest(attach, id, recfile)))] + Drain(last, id, rest[|second|..])
           && o == DrainOutcome(last, rest[|second|..])
      ensures var reply := DrainOutcome(ForReply(RingRequest(ring, username, callee).mid), old(messages));
        var rest := old(messages)[|first|..];
        if !reply.Stopped? || reply.m.attrs.None? then
          && second == third == [] && id == old(id) && targetid == old(targetid)
          && o == if reply.Stopped? then Raised else reply
        else
          var answer := DrainOutcome(ForAnswered(Get(reply.m.attrs.value, TargetKey())), rest);
          !answer.Stopped? ==> third == [] && o == answer
    {
      hide Output, Consumed, Drain, AllLegal, DrainOutcome, FormatMessage, OwnRequest;
      first, second, third := [], [], [];
      ghost var start, queue := past, messages;
      var r := Msg(ring, RingName(), RingAttrs(username, callee), true);
      o := r.value;
      ghost var w := ForReply(RingRequest(ring, username, callee).mid);
      first := Drain(w, id, queue);
      Unit(past);
      if !o.Stopped? {
        return;
      }
      if o.m.attrs.None? {
        o := Raised;
        return;
      }
      targetid := Get(o.m.attrs.value, TargetKey());
      id := Get(o.m.attrs.value, IdKey());
      ghost var rest := messages;
      o := AwaitNotice(ForAnswered(targetid), AnsweredName(), targetid);
      second := Drain(ForAnswered(targetid), id, rest);
      Unit(past);
      if !o.Stopped? {
        return;
      }
      ghost var answered := past;
      ghost var later := messages;
      r := Msg(attach, AttachName(), AttachAttrs(id, recfile), true);
      o := r.value;
      third := [Sent(FormatMessage(AttachRequest(attach, id, recfile)))]
        + Drain(ForReply(AttachRequest(attach, id, recfile).mid), id, later);
      Assoc(answered, [Sent(FormatMessage(AttachRequest(attach, id, recfile)))],
            Drain(ForReply(AttachRequest(attach, id, recfile).mid), id, later));
    }

    /** `hangup`. */
    method Hangup(env: Env) returns (o: Outcome)
      requires Valid()
      modifies this`messages, this`out, this`past, this`awaited
      ensures var m := OwnRequest(env, Ascii("call.drop"), [Attr(IdKey(), PyText(targetid))]);
        && Drained(ForReply(m.mid), old(past) + [Sent(FormatMessage(m))], old(messages))
        && o == DrainOutcome(ForReply(m.mid), old(messages))
    {
      hide OwnRequest, FormatMessage, Drain, DrainOutcome, Output, Consumed, AllLegal;
      var r := Msg(env, Ascii("call.drop"), [Attr(IdKey(), PyText(targetid))], true);
      o := r.value;
    }

    /** After i of the tones: the requests for them were sent, and what is left
        will complete the events. */
    ghost predicate Sending(start: seq<Event>, queue: seq<Message>, dtmf: Text, envs: seq<Env>, pauses: seq<nat>, i: nat)
      requires i <= |dtmf| == |envs| == |pauses|
      reads this
    {
      var lines := ToneLines(dtmf, envs, targetid);
      && Valid() && start <= past
      && Requested(past[|start|..]) == ToneLines(dtmf[..i], envs[..i], targetid)
      && past + SendEvents(lines[i..], pauses[i..], id, messages) == start + SendEvents(lines, pauses, id, queue)
      && SendOk(pauses[i..], id, messages) == SendOk(pauses, id, queue)
    }

    /** All of it, up to a pause that raised. */
    ghost predicate SentAll(start: seq<Event>, queue: seq<Message>, dtmf: Text, envs: seq<Env>, pauses: seq<nat>, ok: bool)
      requires |dtmf| == |envs| == |pauses|
      reads this
    {
      var lines := ToneLines(dtmf, envs, targetid);
      && Valid() && start <= past
      && past == start + SendEvents(lines, pauses, id, queue)
      && (ok <==> SendOk(pauses, id, queue))
      && Requested(past[|start|..]) <= lines
      && (ok ==> Requested(past[|start|..]) == lines)
    }

    /** `send_dtmf`: one request per character, none waited for; after each,
        the pause serves some of what arrives. */
    method SendDtmf(dtmf: Text, envs: seq<Env>, pauses: seq<nat>) returns (ok: bool)
      requires Valid() && |envs| == |pauses| == |dtmf|
      modifies this`messages, this`out, this`past, this`awaited
      ensures Valid() && awaited == old(awaited)
      ensures past == old(past) + SendEvents(ToneLines(dtmf, envs, targetid), pauses, id, old(messages))
      ensures ok <==> SendOk(pauses, id, old(messages))
      ensures var asked := Requested(past[|old(past)|..]);
        && asked <= ToneLines(dtmf, envs, targetid)
        && (ok ==> asked == ToneLines(dtmf, envs, targetid))
    {
      ok := SendRounds(dtmf, envs, pauses, past, messages);
    }

    /** The loop of `send_dtmf`. */
    method SendRounds(dtmf: Text, envs: seq<Env>, pauses: seq<nat>, ghost start: seq<Event>, ghost queue: seq<Message>)
      returns (ok: bool)
      requires Valid() && |envs| == |pauses| == |dtmf| && past == start && messages == queue
      modifies this`messages, this`out, this`past, this`awaited
      ensures SentAll(start, queue, dtmf, envs, pauses, ok) && awaited == old(awaited)
    {
      hide YATEConnection.Valid, YATEConnection.Sending, YATEConnection.SentAll;
      SendFirst(start, queue, dtmf, envs, pauses);
      for i := 0 to |dtmf|
        invariant awaited == old(awaited) && Sending(start, queue, dtmf, envs, pauses, i)
      {
        ok := SendOne(dtmf, envs, pauses, i, start, queue);
        if !ok {
          return;
        }
      }
      SendLast(start, queue, dtmf, envs, pauses);
      return true;
    }

    lemma SendFirst(start: seq<Event>, queue: seq<Message>, dtmf: Text, envs: seq<Env>, pauses: seq<nat>)
      requires Valid() && |envs| == |pauses| == |dtmf| && past == start && messages == queue
      ensures Sending(start, queue, dtmf, envs, pauses, 0)
    {
      hide YATEConnection.Valid, SendEvents, SendOk;
      SendNothing(ToneLines(dtmf, envs, targetid), pauses, id, messages, past);
      assert past[|start|..] == [];
    }

    lemma SendLast(start: seq<Event>, queue: seq<Message>, dtmf: Text, envs: seq<Env>, pauses: seq<nat>)
      requires |envs| == |pauses| == |dtmf| && Sending(start, queue, dtmf, envs, pauses, |dtmf|)
      ensures SentAll(start, queue, dtmf, envs, pauses, true)
    {
      hide YATEConnection.Valid, SendEvents, SendOk, Requested;
      SendNothing(ToneLines(dtmf, envs, targetid), pauses, id, messages, past);
      assert dtmf[..|dtmf|] == dtmf && envs[..|dtmf|] == envs;
    }

    /** One round of it. */
    method SendOne(dtmf: Text, envs: seq<Env>, pauses: seq<nat>, i: nat, ghost start: seq<Event>, ghost queue: seq<Message>)
      returns (ok: bool)
      requires i < |dtmf| == |envs| == |pauses| && Sending(start, queue, dtmf, envs, pauses, i)
      modifies this`messages, this`out, this`past, this`awaited
      ensures awaited == old(awaited)
      ensures ok ==> Sending(start, queue, dtmf, envs, pauses, i + 1)
      ensures !ok ==> SentAll(start, queue, dtmf, envs, pauses, false)
    {
      hide Output, Consumed, Drain, AllLegal, DrainOutcome, FormatMessage, OwnRequest, DtmfName, TargetKey, SendEvents,
        SendOk, Requested, ToneLines;
      ghost var lines := ToneLines(dtmf, envs, targetid);
      ghost var before, ms := past, messages;
      ghost var head := ms[..Min(pauses[i], |ms|)];
      ghost var line := FormatMessage(OwnRequest(envs[i], DtmfName(), ToneAttrs(targetid, dtmf[i])));
      ToneLineAt(dtmf, envs, targetid, i);
      SendStep(lines, pauses, id, ms, i, before);
      var _ := Msg(envs[i], DtmfName(), ToneAttrs(targetid, dtmf[i]), false);
      ok := Sleep(pauses[i]);
      Assoc(before, [Sent(line)], Drain(ForNothing, id, head));
      RequestedStep(start, before, line, ForNothing, id, head);
    }
  }

  /** What a pause makes of a message. */
  lemma PauseEvent(id: Channel, m: Message)
    ensures Judge(ForNothing, m) == if Unanswerable(m) then Fail else Serve
    ensures Lines(EventOf(ForNothing, id, m)) == if Unanswerable(m) then [] else Lines(Served(m, id))
  {
  }

  lemma NothingDrained(w: Wait, id: Channel, past: seq<Event>)
    ensures past + Drain(w, id, []) == past && DrainOutcome(w, []) == Blocked
  {
  }

  lemma DrainStep(w: Wait, id: Channel, ms: seq<Message>, past: seq<Event>)
    requires ms != []
    ensures var e := EventOf(w, id, ms[0]);
      past + Drain(w, id, ms) ==
        if Judge(w, ms[0]) == Serve then past + [e] + Drain(w, id, ms[1..]) else past + [e]
    ensures DrainOutcome(w, ms) == match Judge(w, ms[0])
      case Stop => Stopped(ms[0])
      case Fail => Raised
      case Serve => DrainOutcome(w, ms[1..])
  {
    hide Judge, EventOf;
    var e, rest := EventOf(w, id, ms[0]), Drain(w, id, ms[1..]);
    Assoc(past, [e], rest);
    Unit([e]);
  }
}
