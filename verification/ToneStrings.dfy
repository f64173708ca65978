/**
Reading strings of tones: what `recv_dtmf_str` returns, and the '#'-framed
read of `place_flag` (helplinechecker_manual.py), for every interleaving with
foreign messages.
*/
module ToneStrings {
  import opened Wrappers
  import opened Escape
  import opened Wire
  import opened Connection
  import opened Sequences
  import WireRoundTrips
  import Dtmf

  /** The tones of a call, in arrival order. */
  function Tones(ms: seq<Message>, id: Channel): seq<Message> {
    if ms == [] then []
    else if IsTone(ms[0], id) then [ms[0]] + Tones(ms[1..], id)
    else Tones(ms[1..], id)
  }

  /** One reply for each request, in order: true for the tones of the call,
      false for all others, none for notices and responses. */
  function RepliesTo(ms: seq<Message>, id: Channel): seq<Text> {
    if ms == [] then []
    else if ms[0].kind == Request && Printable(ms[0]) then
      [FormatResponse(ms[0], IsTone(ms[0], id))] + RepliesTo(ms[1..], id)
    else RepliesTo(ms[1..], id)
  }

  /** The requests that can be answered, in order. */
  function Questions(ms: seq<Message>): seq<Message> {
    if ms == [] then []
    else if ms[0].kind == Request && Printable(ms[0]) then [ms[0]] + Questions(ms[1..])
    else Questions(ms[1..])
  }

  /** One line for each of them, in order, under its id, that says true for the
      tones of the call and false for all others. */
  predicate Answers(lines: seq<Text>, ms: seq<Message>, id: Channel) {
    var qs := Questions(ms);
    |lines| == |qs| && forall i :: 0 <= i < |qs| ==> WireRoundTrips.Replies(lines[i], qs[i].mid, IsTone(qs[i], id))
  }

  lemma {:induction false} RepliesAnswer(ms: seq<Message>, id: Channel)
    ensures Answers(RepliesTo(ms, id), ms, id)
  {
    hide IsTone, FormatResponse, Printable, WireRoundTrips.Replies;
    if ms != [] {
      RepliesAnswer(ms[1..], id);
      if ms[0].kind == Request && Printable(ms[0]) {
        WireRoundTrips.ResponseReplies(ms[0], IsTone(ms[0], id));
      }
    }
  }

  /** No request in the queue makes the client raise. */
  predicate AllAnswerable(ms: seq<Message>) {
    forall i :: 0 <= i < |ms| ==> !Unanswerable(ms[i])
  }

  predicate AllSpeak(ts: seq<Message>) {
    forall i :: 0 <= i < |ts| ==> ToneText(ts[i]).Some?
  }

  /** The texts of tones, one after the other. */
  function Texts(ts: seq<Message>): Text
    requires AllSpeak(ts)
  {
    if ts == [] then [] else ToneText(ts[0]).value + Texts(ts[1..])
  }

  // ------------------------------------------------------ one wait for a tone

  lemma {:induction false} OutputAppend(a: seq<Event>, b: seq<Event>)
    ensures Output(a + b) == Output(a) + Output(b)
  {
    hide Lines, Output;
    if b == [] {
      Unit(a);
      NoOutput();
      Unit(Output(a));
    } else {
      var front, e := b[..|b| - 1], b[|b| - 1];
      FrontLast(b);
      Assoc(a, front, [e]);
      OutputAppend(a, front);
      OutputStep(a + front, e);
      OutputStep(front, e);
      Assoc(Output(a), Output(front), Lines(e));
    }
  }

  lemma OutputFirst(e: Event, es: seq<Event>)
    ensures Output([e] + es) == Lines(e) + Output(es)
  {
    hide Output, Lines;
    OutputAppend([e], es);
    OutputStep([], e);
    NoOutput();
    Unit([e]);
    Unit(Lines(e));
  }

  lemma EventWritesReply(w: Wait, id: Channel, m: Message)
    requires w.ForTone? ==> w.channel == id
    requires w.ForReply? ==> Judge(w, m) != Stop
    ensures Lines(EventOf(w, id, m)) ==
      if m.kind == Request && Printable(m) then [FormatResponse(m, IsTone(m, id))] else []
  {
    hide FormatResponse;
  }

  /** How many messages a wait deals with on the spot: all it consumes, but
      for the one it takes for the awaited reply. */
  function Attended(w: Wait, id: Channel, ms: seq<Message>): (n: nat)
    ensures n <= |ms|
  {
    var n := |Drain(w, id, ms)|;
    if w.ForReply? && DrainOutcome(w, ms).Stopped? && n > 0 then n - 1 else n
  }

  lemma WaitStep(w: Wait, id: Channel, ms: seq<Message>)
    requires ms != []
    ensures var es, v := Drain(w, id, ms), Judge(w, ms[0]);
      && es == [EventOf(w, id, ms[0])] + (if v == Serve then Drain(w, id, ms[1..]) else [])
      && DrainOutcome(w, ms) == (match v
           case Stop => Stopped(ms[0])
           case Fail => Raised
           case Serve => DrainOutcome(w, ms[1..]))
      && Attended(w, id, ms) ==
           if v == Serve then 1 + Attended(w, id, ms[1..]) else if w.ForReply? && v == Stop then 0 else 1
  {
    hide EventOf, Judge;
    if Judge(w, ms[0]) == Serve && ms[1..] == [] {
      assert Drain(w, id, ms[1..]) == [];
    }
  }

  lemma AttendedNothing(w: Wait, id: Channel)
    ensures Attended(w, id, []) == 0 && Drain(w, id, []) == [] && DrainOutcome(w, []) == Blocked
    ensures Output([]) == [] && RepliesTo([], id) == []
  {
  }

  lemma {:induction false} WaitWritesReplies(w: Wait, id: Channel, ms: seq<Message>)
    requires w.ForTone? ==> w.channel == id
    ensures Output(Drain(w, id, ms)) == RepliesTo(ms[..Attended(w, id, ms)], id)
  {
    hide FormatResponse, Output, Lines, IsTone, EventOf, Judge, Drain, DrainOutcome, Attended, RepliesTo, Printable;
    AttendedNothing(w, id);
    if ms == [] {
      return;
    }
    var m, rest := ms[0], if Judge(w, ms[0]) == Serve then Drain(w, id, ms[1..]) else [];
    WaitStep(w, id, ms);
    OutputFirst(EventOf(w, id, m), rest);
    var n := Attended(w, id, ms);
    if n == 0 {
      AnswerIsSilent(w, id, m);
      return;
    }
    EventWritesReply(w, id, m);
    RepliesFirst(ms[..n], id);
    assert ms[..n][1..] == ms[1..][..n - 1];
    if Judge(w, m) == Serve {
      WaitWritesReplies(w, id, ms[1..]);
    }
  }

  /** During any wait exactly the consumed requests are answered, in arrival
      order: true for the tones of the call, false for all others. Only the
      message taken for an awaited reply gets no answer, whatever its kind. */
  lemma WaitRepliesInOrder(w: Wait, id: Channel, ms: seq<Message>)
    requires w.ForTone? ==> w.channel == id
    ensures Output(Drain(w, id, ms)) == RepliesTo(ms[..Attended(w, id, ms)], id)
    ensures Answers(Output(Drain(w, id, ms)), ms[..Attended(w, id, ms)], id)
  {
    hide Output, Drain, Attended, RepliesTo, Answers;
    WaitWritesReplies(w, id, ms);
    RepliesAnswer(ms[..Attended(w, id, ms)], id);
  }

  lemma AnswerIsSilent(w: Wait, id: Channel, m: Message)
    requires w.ForReply? && Judge(w, m) == Stop
    ensures Lines(EventOf(w, id, m)) == []
  {
  }

  /** The message a wait is for. */
  predicate Meets(w: Wait, m: Message) {
    match w
    case ForReply(mid) => m.mid == mid
    case ForAnswered(c) => Announces(m, Watch, AnsweredName(), IdKey(), c)
    case ForHangup(c) => Announces(m, Watch, HangupName(), IdKey(), c)
    case ForTone(c) => Announces(m, Request, DtmfName(), TargetKey(), c)
    case ForNothing => false
  }

  /** A message of the kind and name that the wait is for. */
  predicate Awaits(w: Wait, m: Message) {
    match w
    case ForAnswered(_) => m.kind == Watch && m.name == Some(AnsweredName())
    case ForHangup(_) => m.kind == Watch && m.name == Some(HangupName())
    case ForTone(_) => m.kind == Request && m.name == Some(DtmfName())
    case _ => false
  }

  /** A message over which the wait raises: a request that cannot be answered,
      or one of the awaited kind and name without attributes. */
  predicate Upsets(w: Wait, m: Message) {
    !Meets(w, m) && (Unanswerable(m) || (Awaits(w, m) && m.attrs.None?))
  }

  /** The first message that meets the wait or upsets it. */
  function End(w: Wait, ms: seq<Message>): (k: nat)
    ensures k <= |ms|
    ensures forall j :: 0 <= j < k ==> !Meets(w, ms[j]) && !Upsets(w, ms[j])
    ensures k < |ms| ==> Meets(w, ms[k]) || Upsets(w, ms[k])
  {
    if ms == [] || Meets(w, ms[0]) || Upsets(w, ms[0]) then 0 else End(w, ms[1..]) + 1
  }

  lemma JudgeMeets(w: Wait, m: Message)
    ensures Judge(w, m) == Stop <==> Meets(w, m)
    ensures Judge(w, m) == Fail <==> Upsets(w, m)
  {
  }

  /** A wait ends at the first message that meets it, or raises over the first
      that upsets it, whichever comes first; it blocks exactly when there is
      neither in the queue, and then it has served everything. */
  lemma {:induction false} WaitEndsAtFirstMatch(w: Wait, id: Channel, ms: seq<Message>)
    ensures var k, n, o := End(w, ms), |Drain(w, id, ms)|, DrainOutcome(w, ms);
      if k == |ms| then o == Blocked && n == |ms|
      else n == k + 1 && o == if Meets(w, ms[k]) then Stopped(ms[k]) else Raised
  {
    hide Judge, EventOf, Meets, Upsets, Drain, DrainOutcome, Attended;
    AttendedNothing(w, id);
    if ms == [] {
      return;
    }
    WaitStep(w, id, ms);
    JudgeMeets(w, ms[0]);
    if Judge(w, ms[0]) == Serve {
      WaitEndsAtFirstMatch(w, id, ms[1..]);
    }
  }

  lemma NoOutput()
    ensures Output([]) == []
  {
  }

  // ---------------------------------------------------------- sending tones

  lemma {:induction false} ConsumedAppend(a: seq<Event>, b: seq<Event>)
    ensures Consumed(a + b) == Consumed(a) + Consumed(b)
    ensures Requested(a + b) == Requested(a) + Requested(b)
  {
    if b == [] {
      assert a + b == a;
    } else {
      var front, e := b[..|b| - 1], b[|b| - 1];
      ConsumedAppend(a, front);
      assert (a + b)[..|a + b| - 1] == a + front && (a + b)[|a + b| - 1] == e;
    }
  }

  /** A wait takes messages from the front of the queue, and asks for nothing. */
  lemma {:induction false} DrainConsumes(w: Wait, id: Channel, ms: seq<Message>)
    ensures Consumed(Drain(w, id, ms)) == ms[..|Drain(w, id, ms)|] && Requested(Drain(w, id, ms)) == []
  {
    hide Drain, DrainOutcome, Attended, EventOf, Judge, Consumed, Requested;
    AttendedNothing(w, id);
    NothingConsumed();
    if ms == [] {
      return;
    }
    WaitStep(w, id, ms);
    var e, rest := EventOf(w, id, ms[0]), if Judge(w, ms[0]) == Serve then Drain(w, id, ms[1..]) else [];
    EventIsLegalKind(w, id, ms[0]);
    EventTakes(w, id, ms[0]);
    ConsumedAppend([e], rest);
    if Judge(w, ms[0]) == Serve {
      DrainConsumes(w, id, ms[1..]);
      assert ms[..1 + |rest|] == [ms[0]] + ms[1..][..|rest|];
    } else {
      assert ms[..1] == [ms[0]];
    }
  }

  lemma NothingConsumed()
    ensures Consumed([]) == [] && Requested([]) == []
  {
  }

  lemma EventTakes(w: Wait, id: Channel, m: Message)
    ensures Consumed([EventOf(w, id, m)]) == [m] && Requested([EventOf(w, id, m)]) == []
  {
    assert [EventOf(w, id, m)][..0] == [];
  }

  /** A pause raises exactly over a message that cannot be answered; else it
      serves everything that arrives in it. */
  lemma PauseServes(id: Channel, ms: seq<Message>)
    ensures DrainOutcome(ForNothing, ms) == Blocked <==> AllAnswerable(ms)
    ensures AllAnswerable(ms) ==> |Drain(ForNothing, id, ms)| == |ms|
  {
    hide Drain, DrainOutcome;
    var k := End(ForNothing, ms);
    WaitEndsAtFirstMatch(ForNothing, id, ms);
    assert forall m :: Upsets(ForNothing, m) <==> Unanswerable(m);
    assert k < |ms| ==> Unanswerable(ms[k]);
  }

  function Sum(ns: seq<nat>): nat {
    if ns == [] then 0 else ns[0] + Sum(ns[1..])
  }

  /** How many messages the pauses serve in all. */
  function ServedIn(pauses: seq<nat>, ms: seq<Message>): (n: nat)
    ensures n <= |ms|
  {
    Min(Sum(pauses), |ms|)
  }

  /** Sending a string of tones comes through exactly when every message that
      arrives in the pauses can be answered. Then each line was sent, in order,
      and exactly these messages were taken from the queue. */
  lemma {:induction false} SendServesExactly(lines: seq<Text>, pauses: seq<nat>, id: Channel, ms: seq<Message>)
    requires |lines| == |pauses|
    ensures var n, es := ServedIn(pauses, ms), SendEvents(lines, pauses, id, ms);
      && (SendOk(pauses, id, ms) <==> AllAnswerable(ms[..n]))
      && (SendOk(pauses, id, ms) ==> Requested(es) == lines && Consumed(es) == ms[..n])
  {
    if lines == [] {
      return;
    }
    hide Drain, DrainOutcome, Requested, Consumed, AllAnswerable, SendEvents, SendOk;
    var head := ms[..Min(pauses[0], |ms|)];
    var rest := ms[|head|..];
    var n' := ServedIn(pauses[1..], rest);
    ServedSplit(pauses, ms);
    hide ServedIn;
    PauseServes(id, head);
    DrainConsumes(ForNothing, id, head);
    AnswerableAppend(head, rest[..n']);
    SendServesExactly(lines[1..], pauses[1..], id, rest);
    SendNext(lines, pauses, id, ms);
    if AllAnswerable(head) && AllAnswerable(rest[..n']) {
      var served := Drain(ForNothing, id, head);
      SentAndServed(lines[0], served, SendEvents(lines[1..], pauses[1..], id, rest));
      HeadTail(lines);
      assert head[..|served|] == head && [lines[0]] + [] + lines[1..] == lines;
    }
  }

  lemma ServedSplit(pauses: seq<nat>, ms: seq<Message>)
    requires pauses != []
    ensures var head := ms[..Min(pauses[0], |ms|)];
      var rest := ms[|head|..];
      ms[..ServedIn(pauses, ms)] == head + rest[..ServedIn(pauses[1..], rest)]
  {
    var k, n' := Min(pauses[0], |ms|), ServedIn(pauses[1..], ms[Min(pauses[0], |ms|)..]);
    assert ServedIn(pauses, ms) == k + n';
    PrefixSplit(ms, k, n');
  }

  /** And each line was sent after what the pauses before it served, before
      anything that its own pause served. */
  lemma {:induction false} SentAfter(lines: seq<Text>, pauses: seq<nat>, id: Channel, ms: seq<Message>, i: nat)
    requires i < |lines| == |pauses| && SendOk(pauses, id, ms)
    ensures var es, p := SendEvents(lines, pauses, id, ms), i + ServedIn(pauses[..i], ms);
      p < |es| && es[p] == Sent(lines[i])
  {
    hide Drain, DrainOutcome, AllAnswerable, SendEvents, SendOk;
    SendNext(lines, pauses, id, ms);
    var head := ms[..Min(pauses[0], |ms|)];
    PauseServes(id, head);
    if i == 0 {
      assert pauses[..0] == [];
    } else {
      var rest := ms[|head|..];
      SentAfter(lines[1..], pauses[1..], id, rest, i - 1);
      ServedSplit(pauses[..i], ms);
      assert pauses[..i][1..] == pauses[1..][..i - 1];
      assert |ms[..ServedIn(pauses[..i], ms)]| == |head| + |rest[..ServedIn(pauses[1..][..i - 1], rest)]|;
    }
  }

  lemma SendNext(lines: seq<Text>, pauses: seq<nat>, id: Channel, ms: seq<Message>)
    requires lines != [] && |lines| == |pauses|
    ensures var head := ms[..Min(pauses[0], |ms|)];
      var rest := ms[|head|..];
      && (SendOk(pauses, id, ms) <==> AllAnswerable(head) && SendOk(pauses[1..], id, rest))
      && (AllAnswerable(head) ==>
            SendEvents(lines, pauses, id, ms)
              == [Sent(lines[0])] + Drain(ForNothing, id, head) + SendEvents(lines[1..], pauses[1..], id, rest))
  {
    PauseServes(id, ms[..Min(pauses[0], |ms|)]);
    hide Drain, DrainOutcome, AllAnswerable;
  }

  lemma SentAndServed(line: Text, served: seq<Event>, more: seq<Event>)
    ensures var es := [Sent(line)] + served + more;
      && Requested(es) == [line] + Requested(served) + Requested(more)
      && Consumed(es) == Consumed(served) + Consumed(more)
  {
    hide Requested, Consumed;
    SentTakes(line);
    ConsumedAppend([Sent(line)] + served, more);
    ConsumedAppend([Sent(line)], served);
  }

  lemma SentTakes(line: Text)
    ensures Consumed([Sent(line)]) == [] && Requested([Sent(line)]) == [line]
  {
    assert [Sent(line)][..0] == [];
  }

  // ------------------------------------------------------------ the tones to come

  function FirstTone(ms: seq<Message>, id: Channel): (p: nat)
    ensures p <= |ms|
  {
    if ms == [] || IsTone(ms[0], id) then 0 else FirstTone(ms[1..], id) + 1
  }

  lemma {:induction false} FirstToneIsFirst(ms: seq<Message>, id: Channel)
    ensures var p := FirstTone(ms, id);
      && (forall j :: 0 <= j < p ==> !IsTone(ms[j], id))
      && (p < |ms| ==> IsTone(ms[p], id))
  {
    hide IsTone;
    if ms != [] && !IsTone(ms[0], id) {
      FirstToneIsFirst(ms[1..], id);
    }
  }

  lemma ToneMeets(m: Message, id: Channel)
    ensures Meets(ForTone(id), m) <==> IsTone(m, id)
    ensures Upsets(ForTone(id), m) <==> Unanswerable(m)
  {
  }

  /** A wait for a tone takes the first one, if every message before it can be
      answered; else it raises. */
  lemma WaitTakesFirstTone(id: Channel, ms: seq<Message>)
    ensures var p, n, o := FirstTone(ms, id), |Drain(ForTone(id), id, ms)|, DrainOutcome(ForTone(id), ms);
      if !AllAnswerable(ms[..p]) then o == Raised
      else if p == |ms| then o == Blocked && n == |ms|
      else o == Stopped(ms[p]) && n == p + 1
  {
    hide Meets, Upsets, Drain, DrainOutcome, IsTone, Unanswerable;
    var w := ForTone(id);
    var k, p := End(w, ms), FirstTone(ms, id);
    FirstToneIsFirst(ms, id);
    WaitEndsAtFirstMatch(w, id, ms);
    forall j | 0 <= j < |ms|
      ensures Meets(w, ms[j]) <==> IsTone(ms[j], id)
      ensures Upsets(w, ms[j]) <==> Unanswerable(ms[j])
    {
      ToneMeets(ms[j], id);
    }
    if p < |ms| {
      ToneMeets(ms[p], id);
    }
    assert AllAnswerable(ms[..p]) <==> forall j :: 0 <= j < p ==> !Unanswerable(ms[j]) by {
      assert forall j :: 0 <= j < p ==> ms[..p][j] == ms[j];
    }
  }

  /** The tones are the first one and those behind it. */
  lemma {:induction false} TonesFrom(ms: seq<Message>, id: Channel)
    ensures var p := FirstTone(ms, id);
      && Tones(ms[..p], id) == []
      && Tones(ms, id) == if p == |ms| then [] else [ms[p]] + Tones(ms[p + 1..], id)
  {
    hide IsTone;
    if ms != [] && !IsTone(ms[0], id) {
      TonesFrom(ms[1..], id);
      var p := FirstTone(ms, id);
      assert ms[..p][1..] == ms[1..][..p - 1];
      assert p < |ms| ==> ms[1..][p..] == ms[p + 1..];
    } else if ms != [] {
      assert ms[..0] == [];
    }
  }

  /** How far one has to read for n tones; everything, if there are fewer. */
  function Reach(ms: seq<Message>, id: Channel, n: nat): (k: nat)
    ensures k <= |ms|
    decreases n
  {
    if n == 0 then 0
    else
      var p := FirstTone(ms, id);
      if p == |ms| then p else p + 1 + Reach(ms[p + 1..], id, n - 1)
  }

  function AtMost<T>(s: seq<T>, n: nat): seq<T> {
    if n <= |s| then s[..n] else s
  }

  lemma ReachFrom(ms: seq<Message>, id: Channel, n: nat)
    requires 0 < n
    ensures var p := FirstTone(ms, id);
      Reach(ms, id, n) == if p == |ms| then p else p + 1 + Reach(ms[p + 1..], id, n - 1)
  {
    hide FirstTone;
  }

  lemma ReachSplit(ms: seq<Message>, id: Channel, n: nat)
    requires 0 < n
    ensures var p, k := FirstTone(ms, id), Reach(ms, id, n);
      if p == |ms| then ms[..k] == ms[..p] == ms
      else ms[..k] == ms[..p] + ([ms[p]] + ms[p + 1..][..Reach(ms[p + 1..], id, n - 1)])
  {
    hide FirstTone;
    ReachFrom(ms, id, n);
  }

  /** That prefix holds the first n tones. */
  lemma {:induction false} ReachHolds(ms: seq<Message>, id: Channel, n: nat)
    ensures Tones(ms[..Reach(ms, id, n)], id) == AtMost(Tones(ms, id), n)
    decreases n
  {
    hide IsTone, Tones, FirstTone;
    if n == 0 {
      assert ms[..0] == [];
      NoTonesAtAll(id);
      return;
    }
    TonesFrom(ms, id);
    ReachSplit(ms, id, n);
    hide Reach;
    var p := FirstTone(ms, id);
    if p < |ms| {
      var rest := ms[p + 1..];
      var k := Reach(rest, id, n - 1);
      FirstToneIsFirst(ms, id);
      ReachHolds(rest, id, n - 1);
      TonesAppend(ms[..p], [ms[p]] + rest[..k], id);
      ToneFirst(ms[p], rest[..k], id);
      Unit(Tones([ms[p]] + rest[..k], id));
      TakeMore(ms[p], Tones(rest, id), n);
    }
  }

  lemma TakeMore<T>(x: T, s: seq<T>, n: nat)
    requires 0 < n
    ensures AtMost([x] + s, n) == [x] + AtMost(s, n - 1)
  {
  }

  lemma NoTonesAtAll(id: Channel)
    ensures Tones([], id) == []
  {
  }

  lemma ToneFirst(m: Message, ms: seq<Message>, id: Channel)
    requires IsTone(m, id)
    ensures Tones([m] + ms, id) == [m] + Tones(ms, id)
  {
    assert ([m] + ms)[1..] == ms;
  }

  lemma AnswerableAppend(a: seq<Message>, b: seq<Message>)
    ensures AllAnswerable(a + b) <==> AllAnswerable(a) && AllAnswerable(b)
  {
    hide Unanswerable;
    var c := a + b;
    if AllAnswerable(c) {
      assert forall i :: 0 <= i < |a| ==> a[i] == c[i];
      forall i | 0 <= i < |b|
        ensures !Unanswerable(b[i])
      {
        assert !Unanswerable(c[|a| + i]);
      }
    }
  }

  lemma ToneIsAnswerable(m: Message, id: Channel)
    requires IsTone(m, id)
    ensures AllAnswerable([m])
  {
  }

  /** Every message up to the n-th tone can be answered; all, if there are fewer tones. */
  predicate Clear(ms: seq<Message>, id: Channel, n: nat) {
    AllAnswerable(ms[..Reach(ms, id, n)])
  }

  lemma ClearFrom(ms: seq<Message>, id: Channel, n: nat)
    requires 0 < n
    ensures var p := FirstTone(ms, id);
      Clear(ms, id, n) <==> AllAnswerable(ms[..p]) && (p < |ms| ==> Clear(ms[p + 1..], id, n - 1))
  {
    hide AllAnswerable, FirstTone, IsTone;
    ReachSplit(ms, id, n);
    hide Reach;
    var p := FirstTone(ms, id);
    if p < |ms| {
      var rest := ms[p + 1..][..Reach(ms[p + 1..], id, n - 1)];
      FirstToneIsFirst(ms, id);
      ToneIsAnswerable(ms[p], id);
      AnswerableAppend([ms[p]], rest);
      AnswerableAppend(ms[..p], [ms[p]] + rest);
    }
  }

  lemma AnswerableAround(ms: seq<Message>, id: Channel)
    ensures var p := FirstTone(ms, id);
      AllAnswerable(ms) <==> AllAnswerable(ms[..p]) && (p < |ms| ==> AllAnswerable(ms[p + 1..]))
  {
    hide AllAnswerable, FirstTone, IsTone;
    var p := FirstTone(ms, id);
    if p < |ms| {
      FirstToneIsFirst(ms, id);
      ToneIsAnswerable(ms[p], id);
      AnswerableAppend([ms[p]], ms[p + 1..]);
      AnswerableAppend(ms[..p], [ms[p]] + ms[p + 1..]);
      assert ms == ms[..p] + ([ms[p]] + ms[p + 1..]);
    } else {
      assert ms[..p] == ms;
    }
  }

  // -------------------------------------------------------- n tones in a row

  lemma {:induction false} RepliesAppend(a: seq<Message>, b: seq<Message>, id: Channel)
    ensures RepliesTo(a + b, id) == RepliesTo(a, id) + RepliesTo(b, id)
  {
    hide FormatResponse, IsTone, Printable;
    if a == [] {
      Unit(b);
      Unit(RepliesTo(b, id));
    } else {
      RepliesAppend(a[1..], b, id);
      TailOfAppend(a, b);
      var first := if a[0].kind == Request && Printable(a[0]) then [FormatResponse(a[0], IsTone(a[0], id))] else [];
      RepliesFirst(a, id);
      RepliesFirst(a + b, id);
      hide RepliesTo;
      Assoc(first, RepliesTo(a[1..], id), RepliesTo(b, id));
    }
  }

  lemma RepliesFirst(ms: seq<Message>, id: Channel)
    requires ms != []
    ensures RepliesTo(ms, id) ==
      (if ms[0].kind == Request && Printable(ms[0]) then [FormatResponse(ms[0], IsTone(ms[0], id))] else [])
      + RepliesTo(ms[1..], id)
  {
    Unit(RepliesTo(ms[1..], id));
  }

  lemma {:induction false} TonesAppend(a: seq<Message>, b: seq<Message>, id: Channel)
    ensures Tones(a + b, id) == Tones(a, id) + Tones(b, id)
  {
    hide IsTone;
    if a == [] {
      Unit(b);
      Unit(Tones(b, id));
    } else {
      TonesAppend(a[1..], b, id);
      TailOfAppend(a, b);
      Assoc([a[0]], Tones(a[1..], id), Tones(b, id));
    }
  }

  lemma RecvUnfold(id: Channel, ms: seq<Message>, n: nat)
    requires 0 < n
    ensures var es, o := Drain(ForTone(id), id, ms), DrainOutcome(ForTone(id), ms);
      RecvEvents(id, ms, n) ==
        if o.Stopped? && ToneText(o.m).Some? then es + RecvEvents(id, ms[|es|..], n - 1) else es
  {
  }

  lemma {:induction false} StringWritesReplies(id: Channel, ms: seq<Message>, n: nat)
    ensures var es := RecvEvents(id, ms, n);
      Output(es) == RepliesTo(ms[..|es|], id)
    decreases n
  {
    hide Drain, DrainOutcome, Output, RepliesTo, RecvEvents, ToneText;
    if n == 0 {
      RecvNothing(id, ms);
      return;
    }
    WaitWritesReplies(ForTone(id), id, ms);
    AllAttended(id, ms);
    RecvUnfold(id, ms, n);
    var es, o := Drain(ForTone(id), id, ms), DrainOutcome(ForTone(id), ms);
    if o.Stopped? && ToneText(o.m).Some? {
      StringWritesReplies(id, ms[|es|..], n - 1);
      JoinReplies(id, ms, es, RecvEvents(id, ms[|es|..], n - 1));
    }
  }

  /** Whatever is consumed for a string of tones, exactly its requests are answered, in order. */
  lemma StringRepliesInOrder(id: Channel, ms: seq<Message>, n: nat)
    ensures var es := RecvEvents(id, ms, n);
      Output(es) == RepliesTo(ms[..|es|], id) && Answers(Output(es), ms[..|es|], id)
  {
    hide Output, RecvEvents, RepliesTo, Answers;
    StringWritesReplies(id, ms, n);
    RepliesAnswer(ms[..|RecvEvents(id, ms, n)|], id);
  }

  lemma AllAttended(id: Channel, ms: seq<Message>)
    ensures Attended(ForTone(id), id, ms) == |Drain(ForTone(id), id, ms)|
  {
  }

  lemma RecvNothing(id: Channel, ms: seq<Message>)
    ensures RecvEvents(id, ms, 0) == [] && Output([]) == [] && RepliesTo(ms[..0], id) == []
  {
  }

  lemma JoinReplies(id: Channel, ms: seq<Message>, es: seq<Event>, more: seq<Event>)
    requires |es| + |more| <= |ms|
    requires Output(es) == RepliesTo(ms[..|es|], id)
    requires Output(more) == RepliesTo(ms[|es|..][..|more|], id)
    ensures Output(es + more) == RepliesTo(ms[..|es + more|], id)
  {
    hide Output, RepliesTo;
    OutputAppend(es, more);
    RepliesAppend(ms[..|es|], ms[|es|..][..|more|], id);
    PrefixSplit(ms, |es|, |more|);
  }

  /** The n-th read, as a function of the tones. */
  lemma RecvFrom(id: Channel, ms: seq<Message>, n: nat, sofar: Text)
    requires 0 < n
    ensures var p, r, es := FirstTone(ms, id), RecvResult(ms, id, n, sofar), RecvEvents(id, ms, n);
      if !AllAnswerable(ms[..p]) then r == Broken
      else if p == |ms| then r == Starved && |es| == |ms|
      else if ToneText(ms[p]).None? then r == TimedOut
      else
        && r == RecvResult(ms[p + 1..], id, n - 1, sofar + ToneText(ms[p]).value)
        && |es| == p + 1 + |RecvEvents(id, ms[p + 1..], n - 1)|
  {
    WaitTakesFirstTone(id, ms);
    hide Drain, DrainOutcome, ToneText, AllAnswerable, FirstTone;
    RecvStep(id, ms, n, [], sofar);
  }

  /** There are n tones, each with a text. */
  predicate Spoken(ts: seq<Message>, n: nat) {
    n <= |ts| && AllSpeak(ts[..n])
  }

  function SpokenText(ts: seq<Message>, n: nat): Text
    requires Spoken(ts, n)
  {
    Texts(ts[..n])
  }

  lemma SpokenFrom(ts: seq<Message>, n: nat)
    requires 0 < n
    ensures Spoken(ts, n) <==> ts != [] && ToneText(ts[0]).Some? && Spoken(ts[1..], n - 1)
    ensures Spoken(ts, n) ==> SpokenText(ts, n) == ToneText(ts[0]).value + SpokenText(ts[1..], n - 1)
  {
    hide ToneText;
    if n <= |ts| {
      var a, b := ts[..n], ts[1..][..n - 1];
      assert a[1..] == b && a[0] == ts[0];
      assert forall i :: 0 < i < n ==> a[i] == b[i - 1];
      if ToneText(ts[0]).Some? && AllSpeak(b) {
        forall i | 0 <= i < n
          ensures ToneText(a[i]).Some?
        {
          if i > 0 {
            assert ToneText(b[i - 1]).Some?;
          }
        }
      }
      if AllSpeak(a) {
        forall i | 0 <= i < n - 1
          ensures ToneText(b[i]).Some?
        {
          assert ToneText(a[i + 1]).Some?;
        }
      }
    }
  }

  lemma SpokenNothing(ts: seq<Message>)
    ensures Spoken(ts, 0) && SpokenText(ts, 0) == []
  {
  }

  lemma ClearNothing(ms: seq<Message>, id: Channel)
    ensures Clear(ms, id, 0)
  {
  }

  /** The string comes out exactly when there are n tones to come, each has a
      text, and every message up to the n-th can be answered. It is made of
      the texts of these tones, in arrival order, and reading stops at the n-th. */
  lemma {:induction false} StringIsFirstTones(id: Channel, ms: seq<Message>, n: nat, sofar: Text)
    ensures var ts, r := Tones(ms, id), RecvResult(ms, id, n, sofar);
      && (r.Complete? <==> Spoken(ts, n) && Clear(ms, id, n))
      && (r.Complete? ==> r == Complete(sofar + SpokenText(ts, n)) && |RecvEvents(id, ms, n)| == Reach(ms, id, n))
    decreases n
  {
    hide Tones, RecvResult, RecvEvents, ToneText, AllAnswerable, FirstTone, Spoken, SpokenText, Clear;
    if n == 0 {
      NoTones(id, ms, [], sofar);
      SpokenNothing(Tones(ms, id));
      ClearNothing(ms, id);
      Unit(sofar);
      return;
    }
    ReachFrom(ms, id, n);
    hide Reach;
    var p, ts := FirstTone(ms, id), Tones(ms, id);
    RecvFrom(id, ms, n, sofar);
    TonesFrom(ms, id);
    ClearFrom(ms, id, n);
    SpokenFrom(ts, n);
    if p < |ms| {
      assert ts[0] == ms[p] && ts[1..] == Tones(ms[p + 1..], id);
      if ToneText(ms[p]).Some? {
        StringIsFirstTones(id, ms[p + 1..], n - 1, sofar + ToneText(ms[p]).value);
        if Spoken(ts, n) {
          Assoc(sofar, ToneText(ms[p]).value, SpokenText(ts[1..], n - 1));
        }
      }
    }
  }

  /** It never comes, the whole queue being served, exactly when there are
      fewer than n tones, all with a text, and everything can be answered. */
  lemma {:induction false} StringStarvesExactly(id: Channel, ms: seq<Message>, n: nat, sofar: Text)
    ensures var ts := Tones(ms, id);
      RecvResult(ms, id, n, sofar) == Starved <==> |ts| < n && AllSpeak(ts) && AllAnswerable(ms)
    ensures RecvResult(ms, id, n, sofar) == Starved ==> |RecvEvents(id, ms, n)| == |ms|
    decreases n
  {
    hide Tones, RecvResult, RecvEvents, ToneText, AllAnswerable, AllSpeak, FirstTone;
    if n == 0 {
      NoTones(id, ms, [], sofar);
      return;
    }
    RecvFrom(id, ms, n, sofar);
    TonesFrom(ms, id);
    AnswerableAround(ms, id);
    var p := FirstTone(ms, id);
    if p == |ms| {
      NobodySpeaks();
    } else {
      var m, rest := ms[p], ms[p + 1..];
      SpeakAll(m, Tones(rest, id));
      if ToneText(m).Some? {
        StringStarvesExactly(id, rest, n - 1, sofar + ToneText(m).value);
      }
    }
  }

  /** The first tone without a text. */
  function FirstSilent(ts: seq<Message>): (k: nat)
    ensures k <= |ts|
    ensures forall j :: 0 <= j < k ==> ToneText(ts[j]).Some?
    ensures k < |ts| ==> ToneText(ts[k]).None?
  {
    if ts == [] || ToneText(ts[0]).None? then 0 else FirstSilent(ts[1..]) + 1
  }

  /** It ends in TIMEOUT exactly when one of the first n tones has no text,
      and every message up to the first such tone can be answered. */
  lemma {:induction false} StringTimesOutExactly(id: Channel, ms: seq<Message>, n: nat, sofar: Text)
    ensures var ts := Tones(ms, id);
      var k := FirstSilent(ts);
      RecvResult(ms, id, n, sofar) == TimedOut <==> k < n && k < |ts| && Clear(ms, id, k + 1)
    decreases n
  {
    hide Tones, RecvResult, RecvEvents, ToneText, AllAnswerable, FirstTone, Clear;
    if n == 0 {
      NoTones(id, ms, [], sofar);
      return;
    }
    var p, ts := FirstTone(ms, id), Tones(ms, id);
    var k := FirstSilent(ts);
    RecvFrom(id, ms, n, sofar);
    TonesFrom(ms, id);
    ClearFrom(ms, id, k + 1);
    if p < |ms| {
      assert ts[0] == ms[p] && ts[1..] == Tones(ms[p + 1..], id);
      if ToneText(ms[p]).Some? {
        StringTimesOutExactly(id, ms[p + 1..], n - 1, sofar + ToneText(ms[p]).value);
      } else {
        ClearNothing(ms[p + 1..], id);
      }
    }
  }

  lemma NobodySpeaks()
    ensures AllSpeak([])
  {
  }

  lemma SpeakAll(m: Message, ts: seq<Message>)
    ensures AllSpeak([m] + ts) <==> ToneText(m).Some? && AllSpeak(ts)
  {
    hide ToneText;
    var all := [m] + ts;
    assert forall i :: 0 <= i < |ts| ==> ts[i] == all[i + 1];
    if AllSpeak(all) {
      assert ToneText(all[0]).Some?;
      forall i | 0 <= i < |ts|
        ensures ToneText(ts[i]).Some?
      {
        assert ToneText(all[i + 1]).Some?;
      }
    }
  }

  /** A flag is checked by reading as many tones as its code is long and
      comparing. The check passes exactly when what was read decodes to the
      flag, with no tone left over. */
  lemma FlagCheckExactly(ms: seq<Message>, id: Channel, flag: Text)
    requires Dtmf.Fits(flag)
    ensures var code := Dtmf.Encoded(flag);
      var r := RecvResult(ms, id, |code|, []);
      r == Complete(code) <==> r.Complete? && |r.text| % 2 == 0 && Dtmf.Decoded(r.text) == Ok(flag)
  {
    hide RecvResult;
    var code := Dtmf.Encoded(flag);
    var r := RecvResult(ms, id, |code|, []);
    Dtmf.DecodeUndoesEncode(flag);
    if r.Complete? && Dtmf.Decoded(r.text) == Ok(flag) {
      Dtmf.EncodeUndoesDecodeExactly(r.text);
    }
  }

  /** And it does pass when the first tones of the call spell the code, and
      every message up to the last of them can be answered, whatever arrives in between and after. */
  lemma SpelledFlagPasses(ms: seq<Message>, id: Channel, flag: Text)
    requires Dtmf.Fits(flag)
    requires var code := Dtmf.Encoded(flag);
      |code| <= |Tones(ms, id)| && Spell(Tones(ms, id)[..|code|], code) && Clear(ms, id, |code|)
    ensures RecvResult(ms, id, |Dtmf.Encoded(flag)|, []) == Complete(Dtmf.Encoded(flag))
  {
    hide RecvResult, Tones, Clear, Dtmf.Encoded, Reach, RecvEvents;
    var code := Dtmf.Encoded(flag);
    SpellTexts(Tones(ms, id)[..|code|], code);
    StringIsFirstTones(id, ms, |code|, []);
    Unit(code);
  }

  /** Tones that spell a text, one character each. */
  predicate Spell(ts: seq<Message>, text: Text) {
    |ts| == |text| && forall i :: 0 <= i < |ts| ==> ToneText(ts[i]) == Some([text[i]])
  }

  lemma {:induction false} SpellTexts(ts: seq<Message>, text: Text)
    requires Spell(ts, text)
    ensures AllSpeak(ts) && Texts(ts) == text
  {
    hide ToneText;
    if ts != [] {
      assert Spell(ts[1..], text[1..]) by {
        assert forall i :: 0 <= i < |ts| - 1 ==> ts[1..][i] == ts[i + 1] && text[1..][i] == text[i + 1];
      }
      SpellTexts(ts[1..], text[1..]);
      HeadTail(text);
    }
  }

  // ---------------------------------------------------- reading up to a '#'

  function Hash(): Text { [Dtmf.HASH] }

  /** The read of `place_flag`: the first wait may time out, a later tone
      without a text raises (None is added to a string). */
  function FramedResult(ms: seq<Message>, id: Channel, first: bool, sofar: Text): Received
    decreases |ms|
  {
    var es, o := Drain(ForTone(id), id, ms), DrainOutcome(ForTone(id), ms);
    match o
    case Blocked => Starved
    case Raised => Broken
    case Stopped(m) =>
      var t := ToneText(m);
      if t.None? then (if first then TimedOut else Broken)
      else if t.value == Hash() then Complete(sofar)
      else
        StoppedHasMessages(id, ms);
        FramedResult(ms[|es|..], id, false, sofar + t.value)
  }

  function FramedEvents(ms: seq<Message>, id: Channel): (es: seq<Event>)
    ensures |es| <= |ms|
    decreases |ms|
  {
    var es, o := Drain(ForTone(id), id, ms), DrainOutcome(ForTone(id), ms);
    if o.Stopped? && ToneText(o.m).Some? && ToneText(o.m).value != Hash() then
      StoppedHasMessages(id, ms);
      es + FramedEvents(ms[|es|..], id)
    else es
  }

  /** `ch = await_dtmf()`, then `while ch != '#'`. */
  method ReadFramed(c: YATEConnection) returns (r: Received)
    requires c.Valid()
    modifies c`messages, c`out, c`past
    ensures c.Valid() && c.past == old(c.past) + FramedEvents(old(c.messages), c.id)
    ensures r == FramedResult(old(c.messages), c.id, true, [])
  {
    hide Drain, DrainOutcome, FramedEvents, FramedResult, Output, Consumed, AllLegal, IsTone;
    ghost var start, queue, id := c.past, c.messages, c.id;
    FramedStep(queue, id, true, [], start);
    var o := c.AwaitDtmf();
    StoppedHasMessages(id, queue);
    if !o.Stopped? {
      return if o == Blocked then Starved else Broken;
    }
    var ch := ToneText(o.m);
    if ch.None? {
      return TimedOut;
    }
    var flagid: Text := [];
    while ch.value != Hash()
      invariant ch.Some? && c.Valid() && c.id == id
      invariant FramedResult(queue, id, true, []) ==
        if ch.value == Hash() then Complete(flagid) else FramedResult(c.messages, id, false, flagid + ch.value)
      invariant start + FramedEvents(queue, id) ==
        if ch.value == Hash() then c.past else c.past + FramedEvents(c.messages, id)
      decreases |c.messages|, ch.value != Hash()
    {
      flagid := flagid + ch.value;
      ghost var ms, before := c.messages, c.past;
      FramedStep(ms, id, false, flagid, before);
      o := c.AwaitDtmf();
      StoppedHasMessages(id, ms);
      if !o.Stopped? {
        return if o == Blocked then Starved else Broken;
      }
      ch := ToneText(o.m);
      if ch.None? {
        return Broken;
      }
    }
    return Complete(flagid);
  }

  lemma StoppedHasMessages(id: Channel, ms: seq<Message>)
    ensures DrainOutcome(ForTone(id), ms).Stopped? ==> ms != [] && |Drain(ForTone(id), id, ms)| > 0
  {
  }

  lemma FramedStep(ms: seq<Message>, id: Channel, first: bool, sofar: Text, past: seq<Event>)
    ensures var es, o := Drain(ForTone(id), id, ms), DrainOutcome(ForTone(id), ms);
      if o.Stopped? && ToneText(o.m).Some? && ToneText(o.m).value != Hash() then
        && FramedResult(ms, id, first, sofar) == FramedResult(ms[|es|..], id, false, sofar + ToneText(o.m).value)
        && past + FramedEvents(ms, id) == past + es + FramedEvents(ms[|es|..], id)
      else
        && past + FramedEvents(ms, id) == past + es
        && FramedResult(ms, id, first, sofar) ==
          if o == Blocked then Starved
          else if o == Raised then Broken
          else if ToneText(o.m).Some? then Complete(sofar)
          else if first then TimedOut else Broken
  {
    hide Drain, DrainOutcome;
    StoppedHasMessages(id, ms);
    var es := Drain(ForTone(id), id, ms);
    Assoc(past, es, FramedEvents(ms[|es|..], id));
  }

  /** The first tone that says '#'. */
  function HashAt(ts: seq<Message>): (h: nat)
    ensures h <= |ts|
    ensures forall j :: 0 <= j < h ==> ToneText(ts[j]) != Some(Hash())
    ensures h < |ts| ==> ToneText(ts[h]) == Some(Hash())
  {
    if ts == [] || ToneText(ts[0]) == Some(Hash()) then 0 else HashAt(ts[1..]) + 1
  }

  /** One wait of the framed read, as a function of the tones. */
  lemma FramedFrom(ms: seq<Message>, id: Channel, first: bool, sofar: Text)
    ensures var p, r := FirstTone(ms, id), FramedResult(ms, id, first, sofar);
      if !AllAnswerable(ms[..p]) then r == Broken
      else if p == |ms| then r == Starved
      else if ToneText(ms[p]).None? then r == if first then TimedOut else Broken
      else if ToneText(ms[p]).value == Hash() then r == Complete(sofar) && |FramedEvents(ms, id)| == p + 1
      else
        && r == FramedResult(ms[p + 1..], id, false, sofar + ToneText(ms[p]).value)
        && |FramedEvents(ms, id)| == p + 1 + |FramedEvents(ms[p + 1..], id)|
  {
    WaitTakesFirstTone(id, ms);
    hide Drain, DrainOutcome, ToneText, AllAnswerable, FirstTone;
    FramedStep(ms, id, first, sofar, []);
  }

  /** For every interleaving with foreign messages, the framed read comes to
      an end exactly when some tone says '#', the tones before it have texts,
      and every message up to it can be answered; it returns those texts, and
      has read up to that tone. */
  lemma {:induction false} FramedReadExactly(ms: seq<Message>, id: Channel, first: bool, sofar: Text)
    ensures var ts, r := Tones(ms, id), FramedResult(ms, id, first, sofar);
      var h := HashAt(ts);
      && (r.Complete? <==> h < |ts| && Spoken(ts, h) && Clear(ms, id, h + 1))
      && (r.Complete? ==> r == Complete(sofar + SpokenText(ts, h)) && |FramedEvents(ms, id)| == Reach(ms, id, h + 1))
    decreases |ms|
  {
    hide Tones, FramedResult, FramedEvents, ToneText, AllAnswerable, FirstTone, Spoken, SpokenText, Clear;
    var p, ts := FirstTone(ms, id), Tones(ms, id);
    var h := HashAt(ts);
    FramedFrom(ms, id, first, sofar);
    TonesFrom(ms, id);
    ClearFrom(ms, id, h + 1);
    ReachFrom(ms, id, h + 1);
    if p < |ms| {
      assert ts[0] == ms[p] && ts[1..] == Tones(ms[p + 1..], id);
      if h == 0 {
        SpokenNothing(ts);
        ClearNothing(ms[p + 1..], id);
        Unit(sofar);
      } else {
        SpokenFrom(ts, h);
        if ToneText(ms[p]).Some? {
          FramedReadExactly(ms[p + 1..], id, false, sofar + ToneText(ms[p]).value);
          if Spoken(ts, h) {
            Assoc(sofar, ToneText(ms[p]).value, SpokenText(ts[1..], h - 1));
          }
        }
      }
    }
  }

  /** It waits for ever exactly when no tone says '#', all tones have texts,
      and every message can be answered. */
  lemma {:induction false} FramedStarvesExactly(ms: seq<Message>, id: Channel, first: bool, sofar: Text)
    ensures var ts := Tones(ms, id);
      FramedResult(ms, id, first, sofar) == Starved <==> HashAt(ts) == |ts| && AllSpeak(ts) && AllAnswerable(ms)
    decreases |ms|
  {
    hide Tones, FramedResult, FramedEvents, ToneText, AllAnswerable, AllSpeak, FirstTone;
    FramedFrom(ms, id, first, sofar);
    TonesFrom(ms, id);
    AnswerableAround(ms, id);
    var p := FirstTone(ms, id);
    if p == |ms| {
      NobodySpeaks();
    } else {
      var m, rest := ms[p], ms[p + 1..];
      SpeakAll(m, Tones(rest, id));
      var ts := Tones(ms, id);
      assert ts[0] == m && ts[1..] == Tones(rest, id);
      if ToneText(m).Some? && ToneText(m).value != Hash() {
        FramedStarvesExactly(rest, id, false, sofar + ToneText(m).value);
      }
    }
  }

  /** And ends in TIMEOUT exactly when the first tone has no text, and every
      message before it can be answered: a later tone without one raises. */
  lemma {:induction false} FramedTimesOutExactly(ms: seq<Message>, id: Channel, first: bool, sofar: Text)
    ensures var p := FirstTone(ms, id);
      FramedResult(ms, id, first, sofar) == TimedOut <==>
        first && p < |ms| && ToneText(ms[p]).None? && AllAnswerable(ms[..p])
    decreases |ms|
  {
    hide FramedResult, FramedEvents, ToneText, AllAnswerable, FirstTone;
    FramedFrom(ms, id, first, sofar);
    var p := FirstTone(ms, id);
    if p < |ms| && ToneText(ms[p]).Some? && ToneText(ms[p]).value != Hash() {
      FramedTimesOutExactly(ms[p + 1..], id, false, sofar + ToneText(ms[p]).value);
    }
  }

  lemma {:induction false} FramedWritesReplies(ms: seq<Message>, id: Channel)
    ensures Output(FramedEvents(ms, id)) == RepliesTo(ms[..|FramedEvents(ms, id)|], id)
    decreases |ms|
  {
    hide Drain, DrainOutcome, Output, RepliesTo, FramedEvents, FramedResult, ToneText;
    WaitWritesReplies(ForTone(id), id, ms);
    AllAttended(id, ms);
    StoppedHasMessages(id, ms);
    FramedStep(ms, id, true, [], []);
    Unit(FramedEvents(ms, id));
    var es, o := Drain(ForTone(id), id, ms), DrainOutcome(ForTone(id), ms);
    Unit(es);
    if o.Stopped? && ToneText(o.m).Some? && ToneText(o.m).value != Hash() {
      FramedWritesReplies(ms[|es|..], id);
      JoinReplies(id, ms, es, FramedEvents(ms[|es|..], id));
    }
  }

  /** Meanwhile every consumed request is answered, in order. */
  lemma FramedRepliesInOrder(ms: seq<Message>, id: Channel)
    ensures Answers(Output(FramedEvents(ms, id)), ms[..|FramedEvents(ms, id)|], id)
  {
    hide Output, FramedEvents, RepliesTo, Answers;
    FramedWritesReplies(ms, id);
    RepliesAnswer(ms[..|FramedEvents(ms, id)|], id);
  }

  /** So a text without '#' that is spelled in tones and closed by '#' is read
      back, whatever arrives in between and after. */
  lemma FramedReadRecovers(ms: seq<Message>, id: Channel, first: bool, sofar: Text, text: Text)
    requires |text| < |Tones(ms, id)| && Spell(Tones(ms, id)[..|text| + 1], text + Ascii("#"))
    requires Clear(ms, id, |text| + 1)
    requires '#' as int !in text
    ensures FramedResult(ms, id, first, sofar) == Complete(sofar + text)
  {
    hide Tones, FramedResult, Clear, ToneText;
    var ts, n := Tones(ms, id), |text|;
    assert Ascii("#") == Hash();
    FramedReadExactly(ms, id, first, sofar);
    assert forall i :: 0 <= i <= n ==> ts[i] == ts[..n + 1][i] && (text + Hash())[i] == if i < n then text[i] else Dtmf.HASH;
    assert forall i :: 0 <= i < n ==> ToneText(ts[i]) == Some([text[i]]) && [text[i]][0] != Hash()[0];
    assert ToneText(ts[n]) == Some(Hash());
    assert HashAt(ts) == n;
    assert Spell(ts[..n], text);
    SpellTexts(ts[..n], text);
  }
}
