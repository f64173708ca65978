/**
What holds of every run of the client, whatever the interleaving of incoming
messages and whatever the order of `msg`, `call`, `sleep` and the waits.
*/
module ConnectionRuns {
  import opened Escape
  import opened Wire
  import opened Connection
  import opened ToneStrings
  import opened WireRoundTrips

  // ---------------------------------------------------------------- selections

  datatype Which = Answered | Lost | Acknowledged | Handed | Dropped | Swallowed

  /** Answered: a reply line was written. Lost: a request that got none.
      Acknowledged: answered true, which are the tones of the call; of these,
      handed to the caller of a wait, or dropped by a wait for something else.
      Swallowed: a tone of the call that was taken for an awaited reply. */
  predicate Holds(k: Which, e: Event) {
    match k
    case Answered => IsReplied(e)
    case Lost => (e.Matched? || e.Failed?) && e.m.kind == Request
    case Acknowledged => IsReplied(e) && IsTone(e.m, e.id)
    case Handed => e.Delivered?
    case Dropped => e.Served? && IsTone(e.m, e.id)
    case Swallowed => e.Matched? && IsTone(e.m, e.id)
  }

  function Select(k: Which, es: seq<Event>): seq<Event> {
    if es == [] then []
    else
      var rest, e := Select(k, es[..|es| - 1]), es[|es| - 1];
      if Holds(k, e) then rest + [e] else rest
  }

  function Requests(ms: seq<Message>): seq<Message> {
    if ms == [] then []
    else
      var rest, m := Requests(ms[..|ms| - 1]), ms[|ms| - 1];
      if m.kind == Request then rest + [m] else rest
  }

  predicate IsReplyLine(line: Text) {
    ResponseTag() <= line
  }

  function ReplyLines(lines: seq<Text>): seq<Text> {
    if lines == [] then []
    else
      var rest, l := ReplyLines(lines[..|lines| - 1]), lines[|lines| - 1];
      if IsReplyLine(l) then rest + [l] else rest
  }

  // ------------------------------------------------- one reply for each request

  lemma TagsDiffer(line: Text)
    ensures !(RequestTag() <= line && ResponseTag() <= line)
  {
    assert RequestTag()[2] != ResponseTag()[2];
  }

  lemma ReplyLineIsTagged(m: Message, id: Channel)
    requires Printable(m)
    ensures IsReplyLine(ReplyLine(m, id))
  {
  }

  lemma RequestsStep(ms: seq<Message>, m: Message)
    ensures Requests(ms + [m]) == if m.kind == Request then Requests(ms) + [m] else Requests(ms)
  {
    assert (ms + [m])[..|ms|] == ms;
  }

  lemma ReplyLinesStep(lines: seq<Text>, e: Event, awaited: set<Text>)
    requires Legal(e, awaited)
    ensures ReplyLines(lines + Lines(e)) == if IsReplied(e) then ReplyLines(lines) + Lines(e) else ReplyLines(lines)
    ensures IsReplied(e) ==> Printable(e.m) && Lines(e) == [ReplyLine(e.m, e.id)]
  {
    hide FormatResponse, IsReplyLine, ReplyLine;
    var ls := Lines(e);
    if e.Sent? {
      TagsDiffer(e.line);
      assert !IsReplyLine(e.line) by { NoReplyTag(e.line); }
    } else if IsReplied(e) {
      ReplyLineIsTagged(e.m, e.id);
    }
    if ls == [] {
      assert lines + ls == lines;
    } else {
      assert (lines + ls)[..|lines|] == lines;
    }
  }

  lemma NoReplyTag(line: Text)
    requires !(ResponseTag() <= line)
    ensures !IsReplyLine(line)
  {
  }

  lemma SelectStep(k: Which, es: seq<Event>, e: Event)
    ensures Select(k, es + [e]) == if Holds(k, e) then Select(k, es) + [e] else Select(k, es)
  {
    assert (es + [e])[..|es|] == es;
  }

  /** All events but the last, and the last. */
  lemma Legally(es: seq<Event>, awaited: set<Text>)
    requires es != [] && AllLegal(es, awaited)
    ensures es == es[..|es| - 1] + [es[|es| - 1]]
    ensures AllLegal(es[..|es| - 1], awaited) && Legal(es[|es| - 1], awaited)
  {
  }

  /** The reply lines on the socket are those of the answered requests, one
      each, in the order in which the requests were consumed. */
  lemma {:induction false} RepliesInOrder(es: seq<Event>, awaited: set<Text>)
    requires AllLegal(es, awaited)
    ensures ReplyLines(Output(es)) == Output(Select(Answered, es))
    ensures |ReplyLines(Output(es))| == |Select(Answered, es)|
  {
    if es == [] {
      return;
    }
    hide Lines, Legal, AllLegal, IsReplied, ReplyLines, ReplyLine, Output, Consumed, Select;
    var front, e := es[..|es| - 1], es[|es| - 1];
    Legally(es, awaited);
    RepliesInOrder(front, awaited);
    OutputStep(front, e);
    SelectStep(Answered, front, e);
    ReplyLinesStep(Output(front), e, awaited);
    OutputStep(Select(Answered, front), e);
  }

  /** Every consumed request is answered, once and in arrival order, exactly
      when none was taken for an awaited reply and none raised. */
  lemma {:induction false} EveryRequestAnsweredExactly(es: seq<Event>, awaited: set<Text>)
    requires AllLegal(es, awaited)
    ensures |Select(Answered, es)| + |Select(Lost, es)| == |Requests(Consumed(es))|
    ensures Consumed(Select(Answered, es)) == Requests(Consumed(es)) <==> Select(Lost, es) == []
    ensures |Consumed(Select(Answered, es))| == |Select(Answered, es)|
  {
    if es == [] {
      return;
    }
    hide Legal, AllLegal, Output, Consumed, Select, Lines, Requests, Holds;
    var front, e := es[..|es| - 1], es[|es| - 1];
    Legally(es, awaited);
    EveryRequestAnsweredExactly(front, awaited);
    OutputStep(front, e);
    SelectStep(Answered, front, e);
    SelectStep(Lost, front, e);
    OutputStep(Select(Answered, front), e);
    ConsumedOutcome(e, awaited);
    if !e.Sent? {
      RequestsStep(Consumed(front), e.m);
    }
  }

  // ------------------------------------------------------------- wait by wait

  lemma {:induction false} SelectsNoneExactly(k: Which, es: seq<Event>)
    ensures Select(k, es) == [] <==> forall i :: 0 <= i < |es| ==> !Holds(k, es[i])
  {
    hide Holds;
    if es != [] {
      var front, e := es[..|es| - 1], es[|es| - 1];
      SelectsNoneExactly(k, front);
      assert forall i :: 0 <= i < |front| ==> front[i] == es[i];
      assert Holds(k, e) ==> Holds(k, es[|es| - 1]);
    }
  }

  lemma {:induction false} DrainAt(w: Wait, id: Channel, ms: seq<Message>, i: nat)
    requires i < |Drain(w, id, ms)|
    ensures Drain(w, id, ms)[i] == EventOf(w, id, ms[i])
  {
    hide EventOf, Judge;
    if i > 0 {
      DrainAt(w, id, ms[1..], i - 1);
    }
  }

  lemma {:induction false} DrainIsLegal(w: Wait, id: Channel, ms: seq<Message>, awaited: set<Text>)
    requires w.ForReply? ==> w.mid in awaited
    requires w.ForTone? ==> w.channel == id
    ensures AllLegal(Drain(w, id, ms), awaited)
  {
    hide EventOf, Judge, Legal;
    forall i | 0 <= i < |Drain(w, id, ms)|
      ensures Legal(Drain(w, id, ms)[i], awaited)
    {
      DrainAt(w, id, ms, i);
      EventIsLegal(w, id, ms[i], awaited);
    }
  }

  lemma WhatIsLost(w: Wait, id: Channel, m: Message)
    ensures Holds(Lost, EventOf(w, id, m)) <==>
      m.kind == Request && if Meets(w, m) then w.ForReply? else Upsets(w, m)
  {
  }

  /** Every request that a wait consumes is answered, exactly when the message
      it ends at is none, or one it does not lose: for a reply, a message that
      is no request; else, one that can be answered or is no request. */
  lemma WaitAnswersExactly(w: Wait, id: Channel, ms: seq<Message>)
    requires w.ForTone? ==> w.channel == id
    ensures var es, k := Drain(w, id, ms), End(w, ms);
      Consumed(Select(Answered, es)) == Requests(Consumed(es)) <==>
        k == |ms| || ms[k].kind != Request || (Meets(w, ms[k]) && !w.ForReply?)
  {
    hide Drain, EventOf, Judge, Meets, Upsets, Holds, Select, Requests, Consumed, AllLegal;
    var es, k := Drain(w, id, ms), End(w, ms);
    var awaited := if w.ForReply? then {w.mid} else {};
    DrainIsLegal(w, id, ms, awaited);
    EveryRequestAnsweredExactly(es, awaited);
    SelectsNoneExactly(Lost, es);
    WaitEndsAtFirstMatch(w, id, ms);
    forall i | 0 <= i < |es|
      ensures Holds(Lost, es[i]) <==> ms[i].kind == Request && if Meets(w, ms[i]) then w.ForReply? else Upsets(w, ms[i])
    {
      DrainAt(w, id, ms, i);
      WhatIsLost(w, id, ms[i]);
    }
  }

  /** The first message that carries this id. */
  function FirstWith(ms: seq<Message>, mid: Text): (k: nat)
    ensures k <= |ms|
    ensures forall j :: 0 <= j < k ==> ms[j].mid != mid
    ensures k < |ms| ==> ms[k].mid == mid
  {
    if ms == [] || ms[0].mid == mid then 0 else FirstWith(ms[1..], mid) + 1
  }

  /** A wait for a reply answers every request it consumes, exactly when the
      first message that carries the awaited id, if there is one, is no
      request, and every message before it can be answered. */
  lemma ReplyWaitAnswersExactly(mid: Text, id: Channel, ms: seq<Message>)
    ensures var es, k := Drain(ForReply(mid), id, ms), FirstWith(ms, mid);
      Consumed(Select(Answered, es)) == Requests(Consumed(es)) <==>
        AllAnswerable(ms[..k]) && (k < |ms| ==> ms[k].kind != Request)
  {
    hide Drain, Select, Requests, Consumed, Printable;
    var w := ForReply(mid);
    var e, k := End(w, ms), FirstWith(ms, mid);
    WaitAnswersExactly(w, id, ms);
    assert forall j :: 0 <= j < |ms| ==> (Meets(w, ms[j]) <==> ms[j].mid == mid);
    assert e < |ms| && !Meets(w, ms[e]) ==> Upsets(w, ms[e]) && Unanswerable(ms[e]);
    assert e <= k;
    assert e < k ==> Unanswerable(ms[..k][e]);
    if !AllAnswerable(ms[..k]) {
      var j :| 0 <= j < k && Unanswerable(ms[..k][j]);
      assert ms[..k][j] == ms[j] && Upsets(w, ms[j]);
    }
  }

  lemma ConsumedOutcome(e: Event, awaited: set<Text>)
    requires Legal(e, awaited)
    ensures (!e.Sent? && e.m.kind == Request) <==> Holds(Answered, e) || Holds(Lost, e)
    ensures !(Holds(Answered, e) && Holds(Lost, e))
  {
  }

  /** What a caller can check: no request that arrives carries an id we await,
      and every one can be printed. */
  predicate NoClash(arrived: seq<Message>, awaited: set<Text>) {
    forall m <- arrived :: m.kind == Request ==> m.mid !in awaited && Printable(m)
  }

  predicate AllIn(ms: seq<Message>, arrived: seq<Message>) {
    forall m <- ms :: m in arrived
  }

  lemma AllInLast(ms: seq<Message>, m: Message, arrived: seq<Message>)
    requires AllIn(ms + [m], arrived)
    ensures AllIn(ms, arrived) && m in arrived
  {
    assert forall x <- ms :: x in ms + [m];
    assert (ms + [m])[|ms|] == m;
  }

  lemma {:induction false} NothingLost(es: seq<Event>, awaited: set<Text>, arrived: seq<Message>)
    requires AllLegal(es, awaited) && NoClash(arrived, awaited) && AllIn(Consumed(es), arrived)
    ensures Select(Lost, es) == []
  {
    if es == [] {
      return;
    }
    hide Legal, AllLegal, Output, Consumed, Select, Lines, NoClash, AllIn, Holds;
    var front, e := es[..|es| - 1], es[|es| - 1];
    Legally(es, awaited);
    SelectStep(Lost, front, e);
    LastIn(front, e, arrived);
    if !e.Sent? {
      NotLost(e, awaited, arrived);
    }
    NothingLost(front, awaited, arrived);
    SentIsNotLost(e);
  }

  lemma LastIn(front: seq<Event>, e: Event, arrived: seq<Message>)
    requires AllIn(Consumed(front + [e]), arrived)
    ensures AllIn(Consumed(front), arrived) && (!e.Sent? ==> e.m in arrived)
  {
    hide Consumed, AllIn;
    OutputStep(front, e);
    if !e.Sent? {
      AllInLast(Consumed(front), e.m, arrived);
    }
  }

  lemma SentIsNotLost(e: Event)
    ensures e.Sent? ==> !Holds(Lost, e)
  {
  }

  lemma NotLost(e: Event, awaited: set<Text>, arrived: seq<Message>)
    requires Legal(e, awaited) && NoClash(arrived, awaited) && !e.Sent? && e.m in arrived
    ensures !Holds(Lost, e)
  {
  }

  lemma AllFromTheQueue(c: YATEConnection)
    requires c.Valid()
    ensures AllIn(Consumed(c.past), c.arrived)
  {
    forall m | m in Consumed(c.past)
      ensures m in c.arrived
    {
      assert m in Consumed(c.past) + c.messages;
    }
  }

  /** One line an event, in order. */
  lemma {:induction false} OneLineEach(es: seq<Event>)
    requires forall e <- es :: SaysRight(e)
    ensures |Output(es)| == |es| == |Consumed(es)|
    ensures forall i :: 0 <= i < |es| ==>
      !es[i].Sent? && Consumed(es)[i] == es[i].m && Replies(Output(es)[i], es[i].m.mid, IsTone(es[i].m, es[i].id))
  {
    hide Lines, Replies, IsTone;
    if es != [] {
      var front, e := es[..|es| - 1], es[|es| - 1];
      assert forall x <- front :: x in es;
      OneLineEach(front);
      OutputStep(front, e);
      assert es == front + [e] && e in es;
    }
  }

  /** In a client that is in a valid state, whatever was called on it: without
      a clash, the reply lines written so far are one for each request
      consumed so far, in arrival order, under its id, and say true exactly for
      the tones of the call, by the channel id that was current. */
  lemma ClientAnswersEveryRequest(c: YATEConnection)
    requires c.Valid() && NoClash(c.arrived, c.awaited)
    ensures ReplyLines(c.out) == Output(Select(Answered, c.past))
    ensures Consumed(Select(Answered, c.past)) == Requests(Consumed(c.past))
    ensures Consumed(c.past) + c.messages == c.arrived
    ensures |ReplyLines(c.out)| == |Requests(Consumed(c.past))| == |Select(Answered, c.past)|
    ensures forall i :: 0 <= i < |ReplyLines(c.out)| ==>
      var e := Select(Answered, c.past)[i];
      !e.Sent? && e.m == Requests(Consumed(c.past))[i] && Replies(ReplyLines(c.out)[i], e.m.mid, IsTone(e.m, e.id))
  {
    hide Select, Requests, ReplyLines, Replies, SaysRight, NoClash, IsTone, Output, Consumed, Says;
    TonesPartitioned(c.past, c.awaited);
    OneLineEach(Select(Answered, c.past));
    RepliesInOrder(c.past, c.awaited);
    AllFromTheQueue(c);
    NothingLost(c.past, c.awaited, c.arrived);
    EveryRequestAnsweredExactly(c.past, c.awaited);
  }

  /** The clash does lose a reply: `msg` compares only ids, so a request that
      comes in under the awaited id ends the wait and is never answered. */
  lemma ClashLosesRequest(id: Channel, m: Message, rest: seq<Message>)
    requires m.kind == Request
    ensures var es := Drain(ForReply(m.mid), id, [m] + rest);
      && DrainOutcome(ForReply(m.mid), [m] + rest) == Stopped(m)
      && Select(Lost, es) == [Matched(m, id)] && Output(es) == []
  {
    var es := Drain(ForReply(m.mid), id, [m] + rest);
    assert es == [Matched(m, id)] + [];
    SelectStep(Lost, [], Matched(m, id));
    OutputStep([], Matched(m, id));
    assert [] + [Matched(m, id)] == es;
  }

  // ------------------------------------------------------- the tones of the call

  /** a is an interleaving of b and c that keeps the order of both. */
  predicate Shuffle<T(==)>(a: seq<T>, b: seq<T>, c: seq<T>)
    decreases |a|
  {
    if a == [] then b == [] && c == []
    else
      var last := a[|a| - 1];
      || (b != [] && b[|b| - 1] == last && Shuffle(a[..|a| - 1], b[..|b| - 1], c))
      || (c != [] && c[|c| - 1] == last && Shuffle(a[..|a| - 1], b, c[..|c| - 1]))
  }

  lemma ShuffleStep<T>(a: seq<T>, b: seq<T>, c: seq<T>, x: T)
    requires Shuffle(a, b, c)
    ensures Shuffle(a + [x], b + [x], c) && Shuffle(a + [x], b, c + [x])
  {
    assert (a + [x])[..|a|] == a && (b + [x])[..|b|] == b && (c + [x])[..|c|] == c;
  }

  lemma {:induction false} TonesShuffled(es: seq<Event>, awaited: set<Text>)
    requires AllLegal(es, awaited)
    ensures Shuffle(Select(Acknowledged, es), Select(Handed, es), Select(Dropped, es))
    ensures |Select(Acknowledged, es)| == |Select(Handed, es)| + |Select(Dropped, es)|
  {
    if es == [] {
      return;
    }
    hide Holds, Legal, AllLegal, Select, Shuffle;
    var front, e := es[..|es| - 1], es[|es| - 1];
    Legally(es, awaited);
    TonesShuffled(front, awaited);
    ToneOutcome(e, awaited);
    SelectStep(Acknowledged, front, e);
    SelectStep(Handed, front, e);
    SelectStep(Dropped, front, e);
    ShuffleStep(Select(Acknowledged, front), Select(Handed, front), Select(Dropped, front), e);
  }

  lemma {:induction false} AnswersSayRight(es: seq<Event>, awaited: set<Text>)
    requires AllLegal(es, awaited)
    ensures forall e <- Select(Answered, es) :: SaysRight(e)
    ensures forall e <- Select(Acknowledged, es) :: Says(e, true)
  {
    if es == [] {
      return;
    }
    hide Holds, Legal, AllLegal, Select, Says, SaysRight;
    var front, e := es[..|es| - 1], es[|es| - 1];
    Legally(es, awaited);
    AnswersSayRight(front, awaited);
    AnswerSaysRight(e, awaited);
    SelectStep(Answered, front, e);
    SelectStep(Acknowledged, front, e);
  }

  /** Every tone that is acknowledged true was either handed to the caller of a
      wait for tones or dropped by another wait, never both, and in order;
      each answer is one line, under the id of the message, and says true
      exactly for the tones. */
  lemma TonesPartitioned(es: seq<Event>, awaited: set<Text>)
    requires AllLegal(es, awaited)
    ensures Shuffle(Select(Acknowledged, es), Select(Handed, es), Select(Dropped, es))
    ensures |Select(Acknowledged, es)| == |Select(Handed, es)| + |Select(Dropped, es)|
    ensures forall e <- Select(Acknowledged, es) :: Says(e, true)
    ensures forall e <- Select(Answered, es) :: SaysRight(e)
  {
    TonesShuffled(es, awaited);
    AnswersSayRight(es, awaited);
  }

  /** The tones of the call among the consumed messages, under the channel id
      that was current when each was consumed. */
  function TonesSeen(es: seq<Event>): seq<Message> {
    if es == [] then []
    else
      var rest, e := TonesSeen(es[..|es| - 1]), es[|es| - 1];
      if !e.Sent? && IsTone(e.m, e.id) then rest + [e.m] else rest
  }

  lemma TonesSeenStep(es: seq<Event>, e: Event)
    ensures TonesSeen(es + [e]) == if !e.Sent? && IsTone(e.m, e.id) then TonesSeen(es) + [e.m] else TonesSeen(es)
  {
    assert (es + [e])[..|es|] == es;
  }

  /** Every tone of the call is acknowledged true, once and in arrival order,
      exactly when none was taken for an awaited reply. */
  lemma {:induction false} EveryToneAcknowledgedExactly(es: seq<Event>, awaited: set<Text>)
    requires AllLegal(es, awaited)
    ensures |Select(Acknowledged, es)| + |Select(Swallowed, es)| == |TonesSeen(es)|
    ensures Consumed(Select(Acknowledged, es)) == TonesSeen(es) <==> Select(Swallowed, es) == []
    ensures |Consumed(Select(Acknowledged, es))| == |Select(Acknowledged, es)|
  {
    if es == [] {
      return;
    }
    hide Legal, AllLegal, Output, Consumed, Select, Lines, TonesSeen, Holds, IsTone;
    var front, e := es[..|es| - 1], es[|es| - 1];
    Legally(es, awaited);
    EveryToneAcknowledgedExactly(front, awaited);
    SelectStep(Acknowledged, front, e);
    SelectStep(Swallowed, front, e);
    OutputStep(Select(Acknowledged, front), e);
    TonesSeenStep(front, e);
    SeenOutcome(e, awaited);
  }

  lemma SeenOutcome(e: Event, awaited: set<Text>)
    requires Legal(e, awaited)
    ensures (!e.Sent? && IsTone(e.m, e.id)) <==> Holds(Acknowledged, e) || Holds(Swallowed, e)
    ensures !(Holds(Acknowledged, e) && Holds(Swallowed, e))
    ensures Holds(Swallowed, e) ==> Holds(Lost, e)
  {
  }

  lemma {:induction false} SwallowedIsLost(es: seq<Event>, awaited: set<Text>)
    requires AllLegal(es, awaited) && Select(Lost, es) == []
    ensures Select(Swallowed, es) == []
  {
    hide Legal, Holds, Select;
    SelectsNoneExactly(Lost, es);
    SelectsNoneExactly(Swallowed, es);
    forall i | 0 <= i < |es|
      ensures !Holds(Swallowed, es[i])
    {
      SeenOutcome(es[i], awaited);
    }
  }

  /** In a client in a valid state, without a clash: the tones of the call that
      were consumed are acknowledged, each once, in arrival order. */
  lemma ClientAcknowledgesEveryTone(c: YATEConnection)
    requires c.Valid() && NoClash(c.arrived, c.awaited)
    ensures Consumed(Select(Acknowledged, c.past)) == TonesSeen(c.past)
    ensures Shuffle(Select(Acknowledged, c.past), Select(Handed, c.past), Select(Dropped, c.past))
    ensures forall e <- Select(Acknowledged, c.past) :: Says(e, true)
    ensures forall e <- Select(Answered, c.past) :: SaysRight(e)
  {
    hide Select, TonesSeen, Shuffle, Says, SaysRight, NoClash;
    TonesPartitioned(c.past, c.awaited);
    AllFromTheQueue(c);
    NothingLost(c.past, c.awaited, c.arrived);
    SwallowedIsLost(c.past, c.awaited);
    EveryToneAcknowledgedExactly(c.past, c.awaited);
  }

  /** The event writes one line, which answers its message by this word. */
  predicate Says(e: Event, handled: bool) {
    !e.Sent? && |Lines(e)| == 1 && Replies(Lines(e)[0], e.m.mid, handled)
  }

  /** True exactly for the tones of the call. */
  predicate SaysRight(e: Event) {
    !e.Sent? && Says(e, IsTone(e.m, e.id))
  }

  lemma AnsweredWrites(e: Event, awaited: set<Text>)
    requires Legal(e, awaited) && Holds(Answered, e)
    ensures Printable(e.m) && Lines(e) == [FormatResponse(e.m, IsTone(e.m, e.id))]
  {
    hide FormatResponse;
  }

  lemma ToneOutcome(e: Event, awaited: set<Text>)
    requires Legal(e, awaited)
    ensures Holds(Acknowledged, e) <==> Holds(Handed, e) || Holds(Dropped, e)
    ensures !(Holds(Handed, e) && Holds(Dropped, e))
    ensures Holds(Acknowledged, e) <==> Holds(Answered, e) && IsTone(e.m, e.id)
  {
  }

  lemma AnswerSaysRight(e: Event, awaited: set<Text>)
    requires Legal(e, awaited)
    ensures Holds(Answered, e) ==> SaysRight(e)
    ensures Holds(Acknowledged, e) ==> SaysRight(e) && Says(e, true)
  {
    hide Replies, FormatResponse, Printable, Announces;
    if Holds(Answered, e) {
      AnsweredWrites(e, awaited);
      ResponseReplies(e.m, IsTone(e.m, e.id));
    }
  }
}
