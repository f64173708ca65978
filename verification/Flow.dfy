/**
Flows (checker/yaypm/flow.py): generators driven by deferreds through one
global result slot.

What a generator does between two yields is unknown, so it is left open: a
running generator may at any point make a deferred, fire one, start another
flow, yield, return or raise. Everything that follows from such an act runs
nested in it, before the generator goes on; the stack says what is nested in
what. The reactor may make and fire deferreds and start flows whenever
nothing is running.
*/
module Flow {
  import opened Wrappers

  type FlowId = nat
  type CellId = nat

  /** What a deferred, or a handler of one, can result in. */
  datatype Outcome = Value(v: int) | Nothing | Failure(e: int)

  /** What step adds to a deferred: the pair (callback, errback), either of
      which makes the next step of the flow, then the errback
      unhandled_exception. logFailure, added between the two, hands on what it is given. */
  datatype Handler = Enter(flow: FlowId) | Guard(flow: FlowId)

  /** A deferred. Each handler is given the result of the one before it, the
      first what the deferred was fired with. For the record: whose exception
      the result is, how many generators were entered, and whose return_with it is. */
  datatype Cell = Cell(
    settled: Option<Outcome>,
    result: Outcome,
    queue: seq<Handler>,
    raisedBy: Option<FlowId>,
    served: nat,
    owner: Option<FlowId>)

  /** Aborted: raised in the first step. Raised: raised in a later one, and return_with not fired for it. */
  datatype Status = Running | Waiting(on: CellId) | Done | Aborted | Raised

  /** A flow, the deferred `return_with` it fires at its end, and how often it did. */
  datatype FlowState = FlowState(status: Status, ret: CellId, fired: nat)

  /** How a generator came to run: as the turn-th one that a cell entered, with this result. */
  datatype Origin = Started | Resumed(cell: CellId, turn: nat, given: Outcome)

  /** A running generator, and whether nobody else has been entered since; a
      fired cell that is running its handlers; a step that has yet to add
      unhandled_exception to the cell its generator yielded. */
  datatype Frame =
    | Segment(flow: FlowId, origin: Origin, clean: bool)
    | Drain(cell: CellId)
    | Adding(flow: FlowId, cell: CellId)

  datatype World = World(
    slot: Option<Outcome>,        // the global current_result
    flows: seq<FlowState>,
    cells: seq<Cell>,
    stack: seq<Frame>)            // innermost last

  // -------------------------------------------------------------------- steps

  datatype Action =
    | Make                        // a new deferred
    | Fire(c: CellId, o: Outcome) // d.callback(...) or d.errback(...)
    | Start                       // go(generator)
    | Yield(c: CellId)            // step up to the first handler added
    | YieldPlain(v: int)          // a yield of something that is no deferred
    | Return
    | Throw(e: int)
    | Resume                      // the next handler of a cell, or the rest of a step

  function Top(w: World): Frame
    requires w.stack != []
  {
    w.stack[|w.stack| - 1]
  }

  predicate Enabled(w: World, a: Action) {
    var idle := w.stack == [];
    var running := w.stack != [] && Top(w).Segment?;
    match a
    case Make => idle || running
    case Fire(c, _) => (idle || running) && c < |w.cells| && w.cells[c].owner.None? && w.cells[c].settled.None?
    case Start => idle || running
    case Yield(c) => running && c < |w.cells|
    case YieldPlain(_) => running
    case Return => running
    case Throw(_) => running
    case Resume => !idle && !running
  }

  /** The generator on top is no longer alone since it was resumed. */
  function Dirty(stack: seq<Frame>): (r: seq<Frame>)
    ensures |r| == |stack|
  {
    if stack != [] && stack[|stack| - 1].Segment? then
      stack[|stack| - 1 := stack[|stack| - 1].(clean := false)]
    else stack
  }

  function Pop(stack: seq<Frame>): seq<Frame>
    requires stack != []
  {
    stack[..|stack| - 1]
  }

  predicate HasDrain(stack: seq<Frame>, c: CellId) {
    exists i :: 0 <= i < |stack| && stack[i] == Drain(c)
  }

  /** A deferred is fired and begins to run its handlers. */
  function Settle(w: World, c: CellId, o: Outcome): World
    requires c < |w.cells|
  {
    w.(cells := w.cells[c := w.cells[c].(settled := Some(o), result := o)], stack := Dirty(w.stack) + [Drain(c)])
  }

  /** `addCallbacks`, `addErrback`: a fired deferred that is not running its
      handlers already runs them at once. */
  function Attach(w: World, c: CellId, h: Handler): World
    requires c < |w.cells|
  {
    w.(cells := w.cells[c := w.cells[c].(queue := w.cells[c].queue + [h])],
       stack := if w.cells[c].settled.Some? && !HasDrain(w.stack, c) then w.stack + [Drain(c)] else w.stack)
  }

  /** `return_with.callback(...)` at the end of the generator on top. */
  function Finish(w: World, f: FlowId, o: Outcome): World
    requires w.stack != [] && f < |w.flows| && w.flows[f].ret < |w.cells|
  {
    var s := w.flows[f];
    Settle(w.(flows := w.flows[f := s.(status := Done, fired := s.fired + 1)], stack := Pop(w.stack)), s.ret, o)
  }

  /** The ids on the stack, in the queues and in the flows are those of existing things. */
  predicate Sound(w: World) {
    && (forall f :: 0 <= f < |w.flows| ==> w.flows[f].ret < |w.cells|)
    && (forall i :: 0 <= i < |w.stack| ==> match w.stack[i]
          case Segment(f, from, _) =>
            f < |w.flows| && (from.Resumed? ==> from.cell < |w.cells| && w.cells[from.cell].settled.Some?)
          case Drain(c) => c < |w.cells| && w.cells[c].settled.Some?
          case Adding(f, c) => f < |w.flows| && c < |w.cells|)
    && (forall c, k :: 0 <= c < |w.cells| && 0 <= k < |w.cells[c].queue| ==> w.cells[c].queue[k].flow < |w.flows|)
  }

  /** The cell on top runs its next handler. What a step returns is None; that
      of one that raises is the exception, put in place by Throw. */
  function Handle(w: World, c: CellId): World
    requires Sound(w) && w.stack != [] && c < |w.cells|
  {
    var cell := w.cells[c];
    if cell.queue == [] then w.(stack := Pop(w.stack))
    else
      var rest := cell.(queue := cell.queue[1..]);
      match cell.queue[0]
      case Enter(f) =>
        World(Some(cell.result),
              w.flows[f := w.flows[f].(status := Running)],
              w.cells[c := rest.(result := Nothing, raisedBy := None, served := cell.served + 1)],
              w.stack + [Segment(f, Resumed(c, cell.served, cell.result), true)])
      case Guard(f) =>
        if cell.result.Failure? then
          var s := w.flows[f];
          Settle(w.(flows := w.flows[f := s.(status := Done, fired := s.fired + 1)],
                    cells := w.cells[c := rest.(result := Nothing, raisedBy := None)]), s.ret, cell.result)
        else w.(cells := w.cells[c := rest])
  }

  /** An exception leaves the generator on top: out of go() itself in the
      first step, where return_with is never fired; else out of callback or
      errback, so that it becomes the result of the deferred. */
  function Raise(w: World, e: int): World
    requires Sound(w) && w.stack != [] && Top(w).Segment?
  {
    var f := Top(w).flow;
    match Top(w).origin
    case Started => w.(flows := w.flows[f := w.flows[f].(status := Aborted)], stack := Pop(w.stack))
    case Resumed(c, _, _) =>
      w.(flows := w.flows[f := w.flows[f].(status := Status.Raised)],
         cells := w.cells[c := w.cells[c].(result := Failure(e), raisedBy := Some(f))],
         stack := Pop(w.stack))
  }

  /** A cell runs its next handler, or a step goes on to add its errback. */
  function Continue(w: World): World
    requires Sound(w) && w.stack != []
  {
    match Top(w)
    case Drain(c) => Handle(w, c)
    case Adding(f, c) => Attach(w.(stack := Pop(w.stack)), c, Guard(f))
    case Segment(_, _, _) => w
  }

  function Step(w: World, a: Action): World
    requires Sound(w) && Enabled(w, a)
  {
    match a
    case Make => w.(cells := w.cells + [Cell(None, Nothing, [], None, 0, None)])
    case Fire(c, o) => Settle(w, c, o)
    case Start =>
      World(None,
            w.flows + [FlowState(Running, |w.cells|, 0)],
            w.cells + [Cell(None, Nothing, [], None, 0, Some(|w.flows|))],
            Dirty(w.stack) + [Segment(|w.flows|, Started, true)])
    case Yield(c) =>
      var f := Top(w).flow;
      Attach(w.(flows := w.flows[f := w.flows[f].(status := Waiting(c))], stack := Pop(w.stack) + [Adding(f, c)]), c, Enter(f))
    case YieldPlain(v) => Finish(w, Top(w).flow, Value(v))
    case Return => Finish(w, Top(w).flow, Nothing)
    case Throw(e) => Raise(w, e)
    case Resume => Continue(w)
  }

  const Initial := World(None, [], [], [])

  // ---------------------------------------------------------------- invariant

  predicate HasSegment(stack: seq<Frame>, f: FlowId) {
    exists i :: 0 <= i < |stack| && stack[i].Segment? && stack[i].flow == f
  }

  /** No generator and no cell is on the stack twice. */
  predicate Distinct(stack: seq<Frame>) {
    forall i, j :: 0 <= i < j < |stack| ==>
      && (stack[i].Segment? && stack[j].Segment? ==> stack[i].flow != stack[j].flow)
      && (stack[i].Drain? && stack[j].Drain? ==> stack[i].cell != stack[j].cell)
  }

  /** Each flow owns one deferred, its own. */
  predicate Owned(w: World)
    requires Sound(w)
  {
    && (forall f :: 0 <= f < |w.flows| ==> w.cells[w.flows[f].ret].owner == Some(f))
    && (forall c :: 0 <= c < |w.cells| && w.cells[c].owner.Some? ==>
          w.cells[c].owner.value < |w.flows| && w.flows[w.cells[c].owner.value].ret == c)
  }

  /** A generator runs exactly while it is on the stack. */
  predicate Tracked(w: World)
    requires Sound(w)
  {
    && Distinct(w.stack)
    && forall f :: 0 <= f < |w.flows| ==> (w.flows[f].status == Running <==> HasSegment(w.stack, f))
  }

  /** No flow is entered twice from one queue. */
  predicate EnterOnce(q: seq<Handler>) {
    forall i, j :: 0 <= i < j < |q| && q[i].Enter? ==> q[i] != q[j]
  }

  /** A flow is to be entered exactly by the cell it yielded. */
  predicate Queued(w: World)
    requires Sound(w)
  {
    && (forall c :: 0 <= c < |w.cells| ==> EnterOnce(w.cells[c].queue))
    && (forall c, k :: 0 <= c < |w.cells| && 0 <= k < |w.cells[c].queue| && w.cells[c].queue[k].Enter? ==>
          w.flows[w.cells[c].queue[k].flow].status == Waiting(c))
    && (forall f :: 0 <= f < |w.flows| && w.flows[f].status.Waiting? ==>
          w.flows[f].status.on < |w.cells| && Enter(f) in w.cells[w.flows[f].status.on].queue)
  }

  /** return_with is fired exactly when the flow is through, and once. */
  predicate Counted(w: World)
    requires Sound(w)
  {
    forall f :: 0 <= f < |w.flows| ==>
      && w.flows[f].fired == (if w.flows[f].status == Done then 1 else 0)
      && (w.cells[w.flows[f].ret].settled.Some? <==> w.flows[f].status == Done)
  }

  /** A fired cell with handlers left is running them. */
  predicate Drained(w: World)
    requires Sound(w)
  {
    forall c :: 0 <= c < |w.cells| && w.cells[c].settled.Some? && w.cells[c].queue != [] ==> HasDrain(w.stack, c)
  }

  /** What the slot holds for a generator when nobody else was entered since. */
  predicate Slotted(w: World) {
    && (forall i :: 0 <= i < |w.stack| - 1 && w.stack[i].Segment? ==> !w.stack[i].clean)
    && (w.stack != [] && Top(w).Segment? && Top(w).clean ==>
          w.slot == if Top(w).origin.Started? then None else Some(Top(w).origin.given))
  }

  /** The last handler of a cell is the entry of f, and the step of f is yet to
      add its errback: at once, or when the cell that it set going is through. */
  predicate ToAdd(stack: seq<Frame>, q: seq<Handler>, f: FlowId, c: CellId) {
    || (stack != [] && stack[|stack| - 1] == Adding(f, c))
    || (|q| == 1 && |stack| >= 2 && stack[|stack| - 2] == Adding(f, c) && stack[|stack| - 1] == Drain(c))
  }

  /** In a queue, the errback of a flow comes right after the entry of the flow. */
  predicate Paired(q: seq<Handler>) {
    && (forall k :: 0 < k < |q| && q[k].Guard? ==> q[k - 1] == Enter(q[k].flow))
    && (forall k :: 0 <= k < |q| - 1 && q[k].Enter? ==> q[k + 1] == Guard(q[k].flow))
  }

  predicate ShapedAt(w: World, c: CellId)
    requires c < |w.cells|
  {
    var q := w.cells[c].queue;
    && Paired(q)
    && (q != [] && q[|q| - 1].Enter? ==> ToAdd(w.stack, q, q[|q| - 1].flow, c))
    && (q != [] && q[0].Guard? ==> w.cells[c].served > 0)
  }

  predicate Shaped(w: World) {
    forall c :: 0 <= c < |w.cells| ==> ShapedAt(w, c)
  }

  /** The errback of f is next in the queue of the cell that runs at level d,
      or will be added when that cell is through. */
  predicate Cover(stack: seq<Frame>, d: int, q: seq<Handler>, f: FlowId, c: CellId) {
    || (q != [] && q[0] == Guard(f))
    || ((q == [] || q[0].Enter?) && 0 < d <= |stack| && stack[d - 1] == Adding(f, c))
  }

  predicate NestedAt(w: World, i: int)
    requires Sound(w) && 0 <= i < |w.stack|
  {
    match w.stack[i]
    case Segment(f, Resumed(c, t, _), _) =>
      && 0 < i && w.stack[i - 1] == Drain(c)
      && w.cells[c].served == t + 1 && w.cells[c].raisedBy == None
      && Cover(w.stack, i - 1, w.cells[c].queue, f, c)
    case Adding(f, c) =>
      var q := w.cells[c].queue;
      if i < |w.stack| - 1 then w.stack[i + 1] == Drain(c) && (q == [] ==> w.cells[c].served > 0)
      else if q == [] then w.cells[c].settled.Some? && !HasDrain(w.stack, c) && w.cells[c].served > 0
      else q[|q| - 1] == Enter(f)
    case _ => true
  }

  /** What stands below what. */
  predicate Nested(w: World)
    requires Sound(w)
  {
    forall i :: 0 <= i < |w.stack| ==> NestedAt(w, i)
  }

  /** The exception of f, the result of c, is about to be handed on. */
  predicate Unhandled(w: World, c: CellId, f: FlowId)
    requires c < |w.cells|
  {
    && w.stack != []
    && ((Top(w) == Drain(c) && Cover(w.stack, |w.stack| - 1, w.cells[c].queue, f, c))
        || (Top(w) == Adding(f, c) && w.cells[c].queue == []))
  }

  predicate StandingAt(w: World, c: CellId)
    requires c < |w.cells|
  {
    var cell := w.cells[c];
    match cell.raisedBy
    case Some(f) =>
      && cell.settled.Some? && cell.served > 0 && cell.result.Failure?
      && f < |w.flows| && w.flows[f].status == Raised && Unhandled(w, c, f)
    case None =>
      if cell.settled.None? then cell.served == 0
      else cell.result == if cell.served == 0 then cell.settled.value else Nothing
  }

  /** Where the result of a cell comes from. */
  predicate Standing(w: World) {
    forall c :: 0 <= c < |w.cells| ==> StandingAt(w, c)
  }

  predicate Inv(w: World) {
    && Sound(w) && Owned(w) && Tracked(w) && Queued(w) && Counted(w) && Drained(w) && Slotted(w)
    && Shaped(w) && Nested(w) && Standing(w)
  }

  // ------------------------------------------------------- the stack as a set

  lemma AfterDirty(stack: seq<Frame>)
    ensures forall f :: HasSegment(Dirty(stack), f) <==> HasSegment(stack, f)
    ensures forall c :: HasDrain(Dirty(stack), c) <==> HasDrain(stack, c)
  {
    var d := Dirty(stack);
    forall f
      ensures HasSegment(d, f) <==> HasSegment(stack, f)
    {
      if HasSegment(d, f) {
        var i :| 0 <= i < |d| && d[i].Segment? && d[i].flow == f;
        assert stack[i].Segment? && stack[i].flow == f;
      }
      if HasSegment(stack, f) {
        var i :| 0 <= i < |stack| && stack[i].Segment? && stack[i].flow == f;
        assert d[i].Segment? && d[i].flow == f;
      }
    }
    forall c
      ensures HasDrain(d, c) <==> HasDrain(stack, c)
    {
      if HasDrain(d, c) {
        var i :| 0 <= i < |d| && d[i] == Drain(c);
        assert stack[i] == Drain(c);
      }
      if HasDrain(stack, c) {
        var i :| 0 <= i < |stack| && stack[i] == Drain(c);
        assert d[i] == Drain(c);
      }
    }
  }

  lemma AfterPush(stack: seq<Frame>, x: Frame)
    ensures forall f :: HasSegment(stack + [x], f) <==> HasSegment(stack, f) || (x.Segment? && x.flow == f)
    ensures forall c :: HasDrain(stack + [x], c) <==> HasDrain(stack, c) || x == Drain(c)
  {
    var s := stack + [x];
    assert s[|stack|] == x;
    forall f
      ensures HasSegment(s, f) <==> HasSegment(stack, f) || (x.Segment? && x.flow == f)
    {
      if HasSegment(stack, f) {
        var i :| 0 <= i < |stack| && stack[i].Segment? && stack[i].flow == f;
        assert s[i] == stack[i];
      }
    }
    forall c
      ensures HasDrain(s, c) <==> HasDrain(stack, c) || x == Drain(c)
    {
      if HasDrain(stack, c) {
        var i :| 0 <= i < |stack| && stack[i] == Drain(c);
        assert s[i] == Drain(c);
      }
    }
  }

  lemma AfterPop(stack: seq<Frame>)
    requires stack != []
    ensures stack == Pop(stack) + [stack[|stack| - 1]]
    ensures var x := stack[|stack| - 1];
      && (forall f :: HasSegment(stack, f) <==> HasSegment(Pop(stack), f) || (x.Segment? && x.flow == f))
      && (forall c :: HasDrain(stack, c) <==> HasDrain(Pop(stack), c) || x == Drain(c))
  {
    AfterPush(Pop(stack), stack[|stack| - 1]);
  }

  /** What is on top of the stack is nowhere else on it. */
  lemma TopIsAlone(stack: seq<Frame>)
    requires stack != [] && Distinct(stack)
    ensures Distinct(Pop(stack))
    ensures var x := stack[|stack| - 1];
      && (x.Segment? ==> !HasSegment(Pop(stack), x.flow))
      && (x.Drain? ==> !HasDrain(Pop(stack), x.cell))
  {
  }

  lemma DistinctPush(stack: seq<Frame>, x: Frame)
    requires Distinct(stack)
    requires x.Segment? ==> !HasSegment(stack, x.flow)
    requires x.Drain? ==> !HasDrain(stack, x.cell)
    ensures Distinct(stack + [x])
  {
    var s := stack + [x];
    forall i, j | 0 <= i < j < |s|
      ensures s[i].Segment? && s[j].Segment? ==> s[i].flow != s[j].flow
      ensures s[i].Drain? && s[j].Drain? ==> s[i].cell != s[j].cell
    {
      assert s[i] == stack[i];
    }
  }

  lemma DistinctDirty(stack: seq<Frame>)
    requires Distinct(stack)
    ensures Distinct(Dirty(stack))
  {
  }

  // ------------------------------------------------- what stays where it stands

  predicate Alike(x: Frame, y: Frame) {
    x == y || (x.Segment? && y.Segment? && x.flow == y.flow && x.origin == y.origin)
  }

  predicate Concerns(x: Frame, c: int) {
    (x.Segment? && x.origin.Resumed? && x.origin.cell == c) || (x.Adding? && x.cell == c)
  }

  /** A cell whose queue has at most grown. */
  predicate Kept(a: Cell, b: Cell) {
    a.served == b.served && a.raisedBy == b.raisedBy && a.queue <= b.queue
    && (a.queue == [] && b.queue != [] ==> b.queue[0].Enter?)
  }

  lemma NestedKept(w: World, w': World, i: nat)
    requires Sound(w) && Sound(w') && i < |w.stack| && i < |w'.stack| && NestedAt(w, i)
    requires forall j :: 0 <= j <= i ==> Alike(w.stack[j], w'.stack[j])
    requires w.stack[i].Adding? ==> i + 1 < |w.stack| && i + 1 < |w'.stack| && w'.stack[i + 1] == w.stack[i + 1]
    requires forall c: int :: Concerns(w.stack[i], c) ==> c < |w.cells| && c < |w'.cells| && Kept(w.cells[c], w'.cells[c])
    ensures NestedAt(w', i)
  {
    hide HasDrain;
    assert forall j :: 0 <= j <= i && !w.stack[j].Segment? ==> w'.stack[j] == w.stack[j];
    match w.stack[i]
    case Segment(f, Resumed(c, t, _), _) => assert Concerns(w.stack[i], c);
    case Segment(_, Started, _) =>
    case Adding(f, c) => assert Concerns(w.stack[i], c);
    case Drain(_) =>
  }

  /** While a generator runs, or nothing does, no exception is on its way and
      no step is about to go on. */
  lemma Calm(w: World)
    requires Inv(w) && (w.stack == [] || Top(w).Segment?)
    ensures forall c :: 0 <= c < |w.cells| ==> w.cells[c].raisedBy == None
    ensures forall c :: 0 <= c < |w.cells| && w.cells[c].queue != [] ==> w.cells[c].queue[|w.cells[c].queue| - 1].Guard?
    ensures forall i :: 0 <= i < |w.stack| && w.stack[i].Adding? ==> i + 2 < |w.stack|
  {
    hide HasSegment, HasDrain, Distinct, Owned, Tracked, Queued, Counted, Drained, Slotted, EnterOnce, Paired, Cover;
    forall c | 0 <= c < |w.cells|
      ensures w.cells[c].raisedBy == None
    {
      assert StandingAt(w, c);
    }
    forall c | 0 <= c < |w.cells| && w.cells[c].queue != []
      ensures w.cells[c].queue[|w.cells[c].queue| - 1].Guard?
    {
      assert ShapedAt(w, c);
    }
    forall i | 0 <= i < |w.stack| && w.stack[i].Adding?
      ensures i + 2 < |w.stack|
    {
      assert NestedAt(w, i);
    }
  }

  /** Acts of generators and of the reactor leave what is nested below them as it was. */
  lemma CalmKeepsNested(w: World, w': World, n: nat)
    requires Inv(w) && (w.stack == [] || Top(w).Segment?) && Sound(w')
    requires n <= |w.stack| && |w.stack| - 1 <= n <= |w'.stack|
    requires forall j :: 0 <= j < n ==> Alike(w.stack[j], w'.stack[j])
    requires |w.cells| <= |w'.cells| && forall c :: 0 <= c < |w.cells| ==> Kept(w.cells[c], w'.cells[c])
    ensures forall i :: 0 <= i < n ==> NestedAt(w', i)
  {
    Calm(w);
    hide HasSegment, HasDrain, Distinct, Owned, Tracked, Queued, Counted, Drained, Slotted, EnterOnce, Paired, Cover,
      Shaped, Standing, Kept;
    forall i | 0 <= i < n
      ensures NestedAt(w', i)
    {
      assert NestedAt(w, i);
      NestedKept(w, w', i);
    }
  }

  /** And where the results of the cells come from. */
  lemma CalmKeepsStanding(w: World, w': World)
    requires Inv(w) && (w.stack == [] || Top(w).Segment?) && |w.cells| <= |w'.cells|
    requires forall c :: 0 <= c < |w.cells| && w'.cells[c] != w.cells[c] ==> StandingAt(w', c)
    requires forall c :: |w.cells| <= c < |w'.cells| ==> StandingAt(w', c)
    ensures Standing(w')
  {
    Calm(w);
    hide Owned, Tracked, Queued, Counted, Drained, Slotted, Shaped, Nested, Unhandled;
    forall c | 0 <= c < |w'.cells|
      ensures StandingAt(w', c)
    {
      if c < |w.cells| {
        assert StandingAt(w, c);
      }
    }
  }

  lemma CalmKeepsShape(w: World, w': World)
    requires Inv(w) && (w.stack == [] || Top(w).Segment?) && |w.cells| <= |w'.cells|
    requires forall c :: 0 <= c < |w.cells| ==> w'.cells[c].queue == w.cells[c].queue && w'.cells[c].served == w.cells[c].served
    requires forall c :: |w.cells| <= c < |w'.cells| ==> w'.cells[c].queue == []
    ensures Shaped(w')
  {
    Calm(w);
    EmptyQueue();
    hide Owned, Tracked, Queued, Counted, Drained, Slotted, Standing, Nested, Paired, ToAdd;
    forall c | 0 <= c < |w'.cells|
      ensures ShapedAt(w', c)
    {
      if c < |w.cells| {
        assert ShapedAt(w, c);
      }
    }
  }

  lemma EmptyQueue()
    ensures EnterOnce([]) && Paired([])
  {
  }

  // --------------------------------------------------------- every step keeps it

  lemma MakeKeeps(w: World)
    requires Inv(w) && Enabled(w, Make)
    ensures Inv(Step(w, Make))
  {
    hide HasSegment, HasDrain, Distinct, Owned, Tracked, Queued, Counted, Drained, Slotted, EnterOnce, Shaped, Standing, NestedAt;
    MakeKeepsFlows(w);
    MakeKeepsQueues(w);
  }

  lemma MakeKeepsFlows(w: World)
    requires Inv(w) && Enabled(w, Make)
    ensures var w' := Step(w, Make);
      && Sound(w') && Owned(w') && Tracked(w') && Queued(w') && Counted(w') && Drained(w') && Slotted(w')
  {
    hide HasSegment, HasDrain, Distinct, EnterOnce, Shaped, Nested, Standing;
    EmptyQueue();
  }

  lemma MakeKeepsQueues(w: World)
    requires Inv(w) && Enabled(w, Make)
    ensures var w' := Step(w, Make); Sound(w') && Shaped(w') && Nested(w') && Standing(w')
  {
    hide HasSegment, HasDrain, Distinct, Owned, Tracked, Queued, Counted, Drained, Slotted, EnterOnce, Shaped, Standing, NestedAt;
    MakeKeepsFlows(w);
    var w' := Step(w, Make);
    CalmKeepsNested(w, w', |w.stack|);
    CalmKeepsStanding(w, w');
    CalmKeepsShape(w, w');
  }

  lemma FireKeepsFlows(w: World, c: CellId, o: Outcome)
    requires Inv(w) && Enabled(w, Fire(c, o))
    ensures var w' := Step(w, Fire(c, o)); Sound(w') && Owned(w') && Counted(w') && Queued(w')
  {
    hide HasSegment, HasDrain, Distinct, Tracked, Drained, Slotted, EnterOnce, Shaped, Nested, Standing;
  }

  lemma FireKeepsStack(w: World, c: CellId, o: Outcome)
    requires Inv(w) && Enabled(w, Fire(c, o))
    ensures var w' := Step(w, Fire(c, o)); Sound(w') && Tracked(w') && Drained(w') && Slotted(w')
  {
    hide Shaped, Nested, Standing;
    FireKeepsFlows(w, c, o);
    AfterDirty(w.stack);
    AfterPush(Dirty(w.stack), Drain(c));
    assert !HasDrain(w.stack, c);
    DistinctDirty(w.stack);
    DistinctPush(Dirty(w.stack), Drain(c));
    hide HasSegment, HasDrain, Distinct, Owned, Counted, Queued;
  }

  lemma FireKeepsQueues(w: World, c: CellId, o: Outcome)
    requires Inv(w) && Enabled(w, Fire(c, o))
    ensures var w' := Step(w, Fire(c, o)); Sound(w') && Shaped(w') && Nested(w') && Standing(w')
  {
    var w' := Step(w, Fire(c, o));
    FireKeepsFlows(w, c, o);
    Calm(w);
    CalmKeepsNested(w, w', |w.stack|);
    assert StandingAt(w, c);
    assert StandingAt(w', c);
    CalmKeepsStanding(w, w');
    CalmKeepsShape(w, w');
    hide HasSegment, HasDrain, Distinct, Owned, Queued, Counted, Drained, EnterOnce, Shaped, Standing;
  }

  lemma StartKeepsFlows(w: World)
    requires Inv(w) && Enabled(w, Start)
    ensures var w' := Step(w, Start); Sound(w') && Owned(w') && Queued(w') && Counted(w')
  {
    EmptyQueue();
    hide HasSegment, HasDrain, Distinct, Tracked, Drained, Slotted, EnterOnce, Shaped, Nested, Standing;
  }

  lemma StartKeepsStack(w: World)
    requires Inv(w) && Enabled(w, Start)
    ensures var w' := Step(w, Start); Sound(w') && Tracked(w') && Drained(w') && Slotted(w')
  {
    hide Shaped, Nested, Standing;
    StartKeepsFlows(w);
    var top := Segment(|w.flows|, Started, true);
    AfterDirty(w.stack);
    AfterPush(Dirty(w.stack), top);
    assert !HasSegment(w.stack, |w.flows|);
    DistinctDirty(w.stack);
    DistinctPush(Dirty(w.stack), top);
    hide HasSegment, HasDrain, Distinct, Owned, Queued, Counted;
  }

  lemma StartKeepsQueues(w: World)
    requires Inv(w) && Enabled(w, Start)
    ensures var w' := Step(w, Start); Sound(w') && Shaped(w') && Nested(w') && Standing(w')
  {
    var w' := Step(w, Start);
    StartKeepsFlows(w);
    EmptyQueue();
    Calm(w);
    CalmKeepsNested(w, w', |w.stack|);
    CalmKeepsStanding(w, w');
    CalmKeepsShape(w, w');
    hide HasSegment, HasDrain, Distinct, Owned, Queued, Counted, Drained, EnterOnce, Shaped, Standing;
  }

  lemma TopIsRunning(w: World)
    requires Inv(w) && w.stack != [] && Top(w).Segment?
    ensures var f := Top(w).flow;
      && w.flows[f].status == Running && w.flows[f].fired == 0 && w.cells[w.flows[f].ret].settled.None?
  {
    assert HasSegment(w.stack, Top(w).flow);
  }

  // -------------------------------------------------------------------- a yield

  lemma YieldKeepsFlows(w: World, c: CellId)
    requires Inv(w) && Enabled(w, Yield(c))
    ensures var w' := Step(w, Yield(c)); Sound(w') && Owned(w') && Counted(w')
  {
    hide HasSegment, HasDrain, Distinct, Queued, Drained, Slotted, Shaped, Nested, Standing;
    TopIsRunning(w);
    hide Tracked;
    var f, w' := Top(w).flow, Step(w, Yield(c));
    assert forall g :: 0 <= g < |w.flows| && g != f ==> w'.flows[g] == w.flows[g];
    assert forall d :: 0 <= d < |w.cells| && d != c ==> w'.cells[d] == w.cells[d];
  }

  lemma NotQueued(w: World, f: FlowId)
    requires Sound(w) && Queued(w) && f < |w.flows| && !w.flows[f].status.Waiting?
    ensures forall d, k :: 0 <= d < |w.cells| && 0 <= k < |w.cells[d].queue| ==> w.cells[d].queue[k] != Enter(f)
  {
    hide EnterOnce;
  }

  lemma EnterOnceMore(q: seq<Handler>, h: Handler)
    requires EnterOnce(q) && (h.Enter? ==> forall k :: 0 <= k < |q| ==> q[k] != h)
    ensures EnterOnce(q + [h])
  {
  }

  lemma YieldKeepsWaiting(w: World, c: CellId)
    requires Inv(w) && Enabled(w, Yield(c))
    ensures Sound(Step(w, Yield(c))) && Queued(Step(w, Yield(c)))
  {
    YieldKeepsFlows(w, c);
    TopIsRunning(w);
    var f, w' := Top(w).flow, Step(w, Yield(c));
    NotQueued(w, f);
    EnterOnceMore(w.cells[c].queue, Enter(f));
    hide HasSegment, HasDrain, Distinct, Owned, Counted, Drained, Slotted, Tracked, EnterOnce, Shaped, Nested, Standing;
    var q, q' := w.cells[c].queue, w'.cells[c].queue;
    assert q' == q + [Enter(f)] && q'[|q|] == Enter(f);
    assert forall d :: 0 <= d < |w.cells| && d != c ==> w'.cells[d] == w.cells[d];
    assert forall g :: 0 <= g < |w.flows| && g != f ==> w'.flows[g] == w.flows[g];
    forall d, k | 0 <= d < |w'.cells| && 0 <= k < |w'.cells[d].queue| && w'.cells[d].queue[k].Enter?
      ensures w'.flows[w'.cells[d].queue[k].flow].status == Waiting(d)
    {
      if d == c && k == |q| {
        assert w'.flows[f].status == Waiting(c);
      } else {
        assert w'.cells[d].queue[k] == w.cells[d].queue[k];
      }
    }
    forall g | 0 <= g < |w'.flows| && w'.flows[g].status.Waiting?
      ensures w'.flows[g].status.on < |w'.cells| && Enter(g) in w'.cells[w'.flows[g].status.on].queue
    {
      if g != f {
        assert Enter(g) in w.cells[w.flows[g].status.on].queue;
      }
    }
  }

  lemma YieldKeepsSlot(w: World, c: CellId)
    requires Inv(w) && Enabled(w, Yield(c))
    ensures Slotted(Step(w, Yield(c)))
  {
    hide HasSegment, HasDrain, Distinct, Owned, Tracked, Queued, Counted, Drained, Shaped, Nested, Standing;
    var w' := Step(w, Yield(c));
    forall i | 0 <= i < |w'.stack| - 1 && w'.stack[i].Segment?
      ensures !w'.stack[i].clean
    {
      assert i < |w.stack| - 1 && w'.stack[i] == w.stack[i];
    }
  }

  lemma YieldKeepsStack(w: World, c: CellId)
    requires Inv(w) && Enabled(w, Yield(c))
    ensures var w' := Step(w, Yield(c)); Sound(w') && Tracked(w') && Drained(w') && Slotted(w')
  {
    YieldKeepsFlows(w, c);
    YieldKeepsSlot(w, c);
    hide Owned, Counted, Queued, Slotted, Shaped, Nested, Standing;
    var rest, x := Pop(w.stack), Adding(Top(w).flow, c);
    AfterPop(w.stack);
    TopIsAlone(w.stack);
    AfterPush(rest, x);
    DistinctPush(rest, x);
    AfterPush(rest + [x], Drain(c));
    if !HasDrain(rest + [x], c) {
      DistinctPush(rest + [x], Drain(c));
    }
    hide HasSegment, HasDrain, Distinct;
  }

  /** The cell that is yielded: the entry comes last, and its errback is to come. */
  lemma YieldShapesCell(w: World, c: CellId)
    requires Inv(w) && Enabled(w, Yield(c))
    ensures ShapedAt(Step(w, Yield(c)), c)
  {
    hide HasSegment, HasDrain, Distinct, Owned, Tracked, Queued, Counted, Drained, Slotted, EnterOnce, Paired, Nested, Standing;
    var f, q := Top(w).flow, w.cells[c].queue;
    Calm(w);
    IdleQueue(w, c);
    assert ShapedAt(w, c);
    PairedMore(q, Enter(f));
    var w' := Step(w, Yield(c));
    assert w'.cells[c].queue == q + [Enter(f)] && w'.cells[c].served == w.cells[c].served;
    var rest := Pop(w.stack) + [Adding(f, c)];
    assert w'.stack == rest || (w'.stack == rest + [Drain(c)] && q == []);
  }

  lemma YieldKeepsShape(w: World, c: CellId)
    requires Inv(w) && Enabled(w, Yield(c))
    ensures Sound(Step(w, Yield(c))) && Shaped(Step(w, Yield(c)))
  {
    hide HasSegment, HasDrain, Distinct, Owned, Tracked, Queued, Counted, Drained, Slotted, EnterOnce, Paired, ToAdd,
      Nested, Standing, Step;
    YieldKeepsFlows(w, c);
    YieldShapesCell(w, c);
    OthersUntouched(w, c);
    Calm(w);
    var w' := Step(w, Yield(c));
    forall d | 0 <= d < |w'.cells|
      ensures ShapedAt(w', d)
    {
      assert ShapedAt(w, d);
    }
  }

  lemma OthersUntouched(w: World, c: CellId)
    requires Sound(w) && Enabled(w, Yield(c))
    ensures var w' := Step(w, Yield(c));
      |w'.cells| == |w.cells| && forall d :: 0 <= d < |w.cells| && d != c ==> w'.cells[d] == w.cells[d]
  {
    hide HasDrain;
  }

  lemma YieldKeepsQueues(w: World, c: CellId)
    requires Inv(w) && Enabled(w, Yield(c))
    ensures var w' := Step(w, Yield(c)); Sound(w') && Shaped(w') && Nested(w') && Standing(w')
  {
    YieldKeepsShape(w, c);
    Calm(w);
    var w', n := Step(w, Yield(c)), |w.stack| - 1;
    hide HasSegment, HasDrain, Distinct, Owned, Tracked, Queued, Counted, Drained, Slotted, EnterOnce, Paired, Shaped,
      Standing, Unhandled, Cover;
    CalmKeepsNested(w, w', n);
    assert StandingAt(w, c);
    assert StandingAt(w', c);
    CalmKeepsStanding(w, w');
    hide StandingAt;
    assert NestedAt(w', n);
  }

  lemma PairedMore(q: seq<Handler>, h: Handler)
    requires Paired(q)
    requires if h.Enter? then q == [] || q[|q| - 1].Guard? else q == [] || q[|q| - 1] == Enter(h.flow)
    ensures Paired(q + [h])
  {
  }

  /** A yield of a fired deferred that is at rest starts with an empty queue. */
  lemma IdleQueue(w: World, c: CellId)
    requires Inv(w) && c < |w.cells|
    ensures w.cells[c].settled.Some? && !HasDrain(w.stack, c) ==> w.cells[c].queue == []
    ensures w.stack != [] && Top(w).Segment? ==> (HasDrain(Pop(w.stack) + [Adding(Top(w).flow, c)], c) <==> HasDrain(w.stack, c))
  {
    if w.stack != [] {
      AfterPop(w.stack);
      if Top(w).Segment? {
        AfterPush(Pop(w.stack), Adding(Top(w).flow, c));
      }
    }
  }

  // ------------------------------------------------------ the end of a generator

  lemma FinishKeepsFlows(w: World, o: Outcome)
    requires Inv(w) && w.stack != [] && Top(w).Segment?
    ensures var w' := Finish(w, Top(w).flow, o); Sound(w') && Owned(w') && Counted(w') && Queued(w')
  {
    TopIsRunning(w);
    hide HasSegment, HasDrain, Distinct, EnterOnce, Drained, Slotted, Tracked, Shaped, Nested, Standing;
  }

  lemma FinishKeepsSlot(w: World, o: Outcome)
    requires Inv(w) && w.stack != [] && Top(w).Segment?
    ensures Slotted(Finish(w, Top(w).flow, o))
  {
    hide HasSegment, HasDrain, Distinct, Owned, Tracked, Queued, Counted, Drained, Shaped, Nested, Standing;
    var w' := Finish(w, Top(w).flow, o);
    forall i | 0 <= i < |w'.stack| - 1 && w'.stack[i].Segment?
      ensures !w'.stack[i].clean
    {
      assert w.stack[i].Segment? && !w.stack[i].clean;
    }
  }

  lemma FinishKeepsStack(w: World, o: Outcome)
    requires Inv(w) && w.stack != [] && Top(w).Segment?
    ensures var w' := Finish(w, Top(w).flow, o); Sound(w') && Tracked(w') && Drained(w') && Slotted(w')
  {
    FinishKeepsFlows(w, o);
    FinishKeepsSlot(w, o);
    FinishedStack(w);
    var f := Top(w).flow;
    var r, rest := w.flows[f].ret, Pop(w.stack);
    AfterPop(w.stack);
    AfterDirty(rest);
    AfterPush(Dirty(rest), Drain(r));
    TopIsAlone(w.stack);
    hide HasSegment, HasDrain, Distinct, Owned, Queued, Counted, Slotted, Shaped, Nested, Standing;
  }

  lemma FinishedStack(w: World)
    requires Inv(w) && w.stack != [] && Top(w).Segment?
    ensures Distinct(Dirty(Pop(w.stack)) + [Drain(w.flows[Top(w).flow].ret)])
  {
    var rest, r := Pop(w.stack), w.flows[Top(w).flow].ret;
    TopIsRunning(w);
    TopIsAlone(w.stack);
    AfterPop(w.stack);
    AfterDirty(rest);
    assert !HasDrain(w.stack, r);
    hide HasSegment, HasDrain, Distinct, Owned, Tracked, Queued, Counted, Drained, Slotted, Shaped, Nested, Standing;
    DistinctDirty(rest);
    DistinctPush(Dirty(rest), Drain(r));
  }

  lemma FinishKeepsStanding(w: World, o: Outcome)
    requires Inv(w) && w.stack != [] && Top(w).Segment?
    ensures Standing(Finish(w, Top(w).flow, o)) && Shaped(Finish(w, Top(w).flow, o))
  {
    var w', r := Finish(w, Top(w).flow, o), w.flows[Top(w).flow].ret;
    TopIsRunning(w);
    Calm(w);
    hide HasSegment, HasDrain, Distinct, Owned, Tracked, Queued, Counted, Drained, Slotted, EnterOnce, Unhandled, Shaped,
      Nested, Standing;
    assert StandingAt(w, r);
    assert StandingAt(w', r);
    CalmKeepsStanding(w, w');
    CalmKeepsShape(w, w');
  }

  lemma FinishKeepsNested(w: World, o: Outcome)
    requires Inv(w) && w.stack != [] && Top(w).Segment?
    ensures Sound(Finish(w, Top(w).flow, o)) && Nested(Finish(w, Top(w).flow, o))
  {
    var w' := Finish(w, Top(w).flow, o);
    FinishKeepsFlows(w, o);
    hide HasSegment, HasDrain, Distinct, Owned, Tracked, Queued, Counted, Drained, EnterOnce, Unhandled, Shaped, Standing;
    CalmKeepsNested(w, w', |w.stack| - 1);
  }

  lemma FinishKeeps(w: World, o: Outcome)
    requires Inv(w) && w.stack != [] && Top(w).Segment?
    ensures Inv(Finish(w, Top(w).flow, o))
  {
    hide Owned, Tracked, Queued, Counted, Drained, Slotted, Shaped, Nested, Standing;
    FinishKeepsFlows(w, o);
    FinishKeepsStack(w, o);
    FinishKeepsNested(w, o);
    FinishKeepsStanding(w, o);
  }

  lemma RaiseKeepsFlows(w: World, e: int)
    requires Inv(w) && Enabled(w, Throw(e))
    ensures var w' := Raise(w, e); Sound(w') && Owned(w') && Counted(w') && Queued(w')
  {
    hide HasSegment, HasDrain, Distinct, EnterOnce, Tracked, Queued, Drained, Slotted, Shaped, Nested, Standing, Raise;
    TopIsRunning(w);
    RaiseEffect(w, e);
    RaiseKeepsWaiting(w, e);
  }

  lemma RaiseKeepsWaiting(w: World, e: int)
    requires Inv(w) && Enabled(w, Throw(e))
    ensures Sound(Raise(w, e)) && Queued(Raise(w, e))
  {
    hide HasSegment, HasDrain, Distinct, EnterOnce, Owned, Tracked, Counted, Drained, Slotted, Shaped, Nested, Standing, Raise;
    TopIsRunning(w);
    RaiseEffect(w, e);
  }

  /** What an exception changes, besides the stack. */
  lemma RaiseEffect(w: World, e: int)
    requires Sound(w) && Enabled(w, Throw(e))
    ensures var w', f, from := Raise(w, e), Top(w).flow, Top(w).origin;
      && w'.stack == Pop(w.stack) && |w'.flows| == |w.flows| && |w'.cells| == |w.cells|
      && (forall g :: 0 <= g < |w.flows| && g != f ==> w'.flows[g] == w.flows[g])
      && w'.flows[f] == w.flows[f].(status := if from.Started? then Aborted else Status.Raised)
      && (from.Resumed? ==> w'.cells[from.cell] == w.cells[from.cell].(result := Failure(e), raisedBy := Some(f)))
      && (forall d :: 0 <= d < |w.cells| && !(from.Resumed? && from.cell == d) ==> w'.cells[d] == w.cells[d])
  {
  }

  lemma RaiseKeepsStack(w: World, e: int)
    requires Inv(w) && Enabled(w, Throw(e))
    ensures var w' := Raise(w, e); Sound(w') && Tracked(w') && Drained(w') && Slotted(w')
  {
    RaiseKeepsFlows(w, e);
    AfterPop(w.stack);
    TopIsAlone(w.stack);
    hide HasSegment, HasDrain, Distinct, Owned, Counted, Queued, Shaped, Nested, Standing;
  }

  /** No other generator was resumed by the cell that resumed the one on top. */
  lemma OthersElsewhere(w: World, i: nat)
    requires Inv(w) && w.stack != [] && Top(w).Segment? && Top(w).origin.Resumed?
    requires i < |w.stack| - 1 && w.stack[i].Segment? && w.stack[i].origin.Resumed?
    ensures w.stack[i].origin.cell != Top(w).origin.cell
  {
    hide HasSegment, HasDrain, Owned, Queued, Counted, Drained, Slotted, EnterOnce, Paired, Cover, Shaped, Standing;
    assert NestedAt(w, i) && NestedAt(w, |w.stack| - 1);
  }

  lemma RaiseKeepsNested(w: World, e: int)
    requires Inv(w) && Enabled(w, Throw(e))
    ensures Sound(Raise(w, e)) && Nested(Raise(w, e))
  {
    var w' := Raise(w, e);
    RaiseKeepsFlows(w, e);
    Calm(w);
    hide HasSegment, HasDrain, Distinct, Owned, Tracked, Queued, Counted, Drained, Slotted, EnterOnce, Shaped, Standing, Cover;
    forall i | 0 <= i < |w'.stack|
      ensures NestedAt(w', i)
    {
      assert NestedAt(w, i);
      if w.stack[i].Segment? && w.stack[i].origin.Resumed? && Top(w).origin.Resumed? {
        OthersElsewhere(w, i);
      }
    }
  }

  lemma RaiseKeepsQueues(w: World, e: int)
    requires Inv(w) && Enabled(w, Throw(e))
    ensures var w' := Raise(w, e); Sound(w') && Shaped(w') && Nested(w') && Standing(w')
  {
    var w' := Raise(w, e);
    RaiseKeepsNested(w, e);
    CalmKeepsShape(w, w');
    hide HasSegment, HasDrain, Distinct, Owned, Tracked, Queued, Counted, Drained, Slotted, EnterOnce, Shaped, Standing, Cover;
    assert NestedAt(w, |w.stack| - 1);
    hide NestedAt;
    if Top(w).origin.Resumed? {
      assert StandingAt(w, Top(w).origin.cell);
      assert StandingAt(w', Top(w).origin.cell);
    }
    CalmKeepsStanding(w, w');
  }

  lemma RaiseKeeps(w: World, e: int)
    requires Inv(w) && Enabled(w, Throw(e))
    ensures Inv(Raise(w, e))
  {
    hide Owned, Tracked, Queued, Counted, Drained, Slotted, Shaped, Nested, Standing;
    RaiseKeepsFlows(w, e);
    RaiseKeepsStack(w, e);
    RaiseKeepsQueues(w, e);
  }

  // ------------------------------------------------- a step adds its errback

  /** Only the cell on top can hold an exception, or an entry whose errback is yet to come. */
  lemma OnlyTop(w: World, c: CellId)
    requires Inv(w) && w.stack != [] && !Top(w).Segment? && c < |w.cells| && Top(w).cell != c
    ensures w.cells[c].raisedBy == None
    ensures w.cells[c].queue != [] ==> w.cells[c].queue[|w.cells[c].queue| - 1].Guard?
  {
    hide HasSegment, HasDrain, Distinct, Owned, Tracked, Queued, Counted, Drained, Slotted, EnterOnce, Paired, Cover, Nested;
    assert StandingAt(w, c) && ShapedAt(w, c);
  }

  lemma AddKeepsFlows(w: World, f: FlowId, c: CellId)
    requires Inv(w) && w.stack != [] && Top(w) == Adding(f, c)
    ensures var w' := Continue(w); Sound(w') && Owned(w') && Counted(w') && Queued(w')
  {
    EnterOnceMore(w.cells[c].queue, Guard(f));
    hide HasSegment, HasDrain, Distinct, Tracked, Drained, Slotted, Shaped, Nested, Standing, EnterOnce;
    var w' := Continue(w);
    assert forall d :: 0 <= d < |w.cells| && d != c ==> w'.cells[d] == w.cells[d];
    assert w.cells[c].queue <= w'.cells[c].queue;
  }

  lemma AddKeepsStack(w: World, f: FlowId, c: CellId)
    requires Inv(w) && w.stack != [] && Top(w) == Adding(f, c)
    ensures var w' := Continue(w); Sound(w') && Tracked(w') && Drained(w') && Slotted(w')
  {
    hide HasSegment, HasDrain, Distinct, Owned, Counted, Queued, Shaped, Nested, Standing;
    AddKeepsFlows(w, f, c);
    AfterPop(w.stack);
    TopIsAlone(w.stack);
    AfterPush(Pop(w.stack), Drain(c));
    if !HasDrain(Pop(w.stack), c) {
      DistinctPush(Pop(w.stack), Drain(c));
    }
    BelowAdding(w, f, c);
  }

  /** Below a step that is about to go on no other such step stands; and no
      generator that still has the slot for itself. */
  lemma BelowAdding(w: World, f: FlowId, c: CellId)
    requires Inv(w) && w.stack != [] && Top(w) == Adding(f, c)
    ensures forall i :: 0 <= i < |w.stack| - 1 && w.stack[i].Adding? ==> i + 2 < |w.stack|
    ensures forall i :: 0 <= i < |w.stack| - 1 && w.stack[i].Segment? ==> !w.stack[i].clean
  {
    hide HasSegment, HasDrain, Distinct, Owned, Tracked, Queued, Counted, Drained, EnterOnce, Shaped, Standing;
    forall i | 0 <= i < |w.stack| - 1 && w.stack[i].Adding?
      ensures i + 2 < |w.stack|
    {
      assert NestedAt(w, i);
    }
  }

  lemma AddKeepsShape(w: World, f: FlowId, c: CellId)
    requires Inv(w) && w.stack != [] && Top(w) == Adding(f, c)
    ensures Sound(Continue(w)) && Shaped(Continue(w))
  {
    AddKeepsFlows(w, f, c);
    hide HasSegment, HasDrain, Distinct, Owned, Tracked, Queued, Counted, Drained, Slotted, EnterOnce, Standing, Paired;
    var w', q := Continue(w), w.cells[c].queue;
    assert NestedAt(w, |w.stack| - 1);
    forall d | 0 <= d < |w'.cells|
      ensures ShapedAt(w', d)
    {
      assert ShapedAt(w, d);
      if d == c {
        PairedMore(q, Guard(f));
      } else {
        OnlyTop(w, d);
      }
    }
  }

  lemma AddKeepsNested(w: World, f: FlowId, c: CellId)
    requires Inv(w) && w.stack != [] && Top(w) == Adding(f, c)
    ensures Sound(Continue(w)) && Nested(Continue(w))
  {
    AddKeepsFlows(w, f, c);
    BelowAdding(w, f, c);
    hide HasSegment, HasDrain, Distinct, Owned, Tracked, Queued, Counted, Drained, Slotted, EnterOnce, Paired, Shaped,
      Standing, Cover;
    var w', n := Continue(w), |w.stack| - 1;
    assert NestedAt(w, n);
    assert forall d :: 0 <= d < |w.cells| && d != c ==> w'.cells[d] == w.cells[d];
    forall i | 0 <= i < n
      ensures NestedAt(w', i)
    {
      assert NestedAt(w, i);
      if w.cells[c].queue == [] {
        RestingCell(w, c, i);
      }
      NestedKept(w, w', i);
    }
  }

  /** No frame but a step about to go on looks at a cell at rest. */
  lemma RestingCell(w: World, c: CellId, i: nat)
    requires Sound(w) && i < |w.stack| - 1 && NestedAt(w, i) && !HasDrain(w.stack, c)
    ensures !Concerns(w.stack[i], c)
  {
  }

  lemma AddKeepsStanding(w: World, f: FlowId, c: CellId)
    requires Inv(w) && w.stack != [] && Top(w) == Adding(f, c)
    ensures Standing(Continue(w))
  {
    hide HasSegment, HasDrain, Distinct, Owned, Tracked, Queued, Counted, Drained, Slotted, EnterOnce, Shaped;
    var w' := Continue(w);
    AfterPop(w.stack);
    assert NestedAt(w, |w.stack| - 1);
    forall d | 0 <= d < |w'.cells|
      ensures StandingAt(w', d)
    {
      assert StandingAt(w, d);
      if d != c {
        OnlyTop(w, d);
      }
    }
  }

  lemma AddKeeps(w: World, f: FlowId, c: CellId)
    requires Inv(w) && w.stack != [] && Top(w) == Adding(f, c)
    ensures Inv(Continue(w))
  {
    hide Owned, Tracked, Queued, Counted, Drained, Slotted, Shaped, Nested, Standing;
    AddKeepsFlows(w, f, c);
    AddKeepsStack(w, f, c);
    AddKeepsShape(w, f, c);
    AddKeepsNested(w, f, c);
    AddKeepsStanding(w, f, c);
  }

  // ------------------------------------------------------ a cell is through

  predicate OnTop(w: World, c: CellId) {
    w.stack != [] && Top(w) == Drain(c) && c < |w.cells|
  }

  lemma ThroughKeepsStack(w: World, c: CellId)
    requires Inv(w) && OnTop(w, c) && w.cells[c].queue == []
    ensures var w' := Handle(w, c);
      && Sound(w') && Owned(w') && Counted(w') && Queued(w') && Tracked(w') && Drained(w') && Slotted(w')
  {
    AfterPop(w.stack);
    TopIsAlone(w.stack);
    hide HasSegment, HasDrain, Distinct, EnterOnce, Shaped, Nested, Standing;
  }

  lemma ThroughKeepsNested(w: World, c: CellId)
    requires Inv(w) && OnTop(w, c) && w.cells[c].queue == []
    ensures Sound(Handle(w, c)) && Nested(Handle(w, c))
  {
    var w', n := Handle(w, c), |w.stack| - 1;
    ThroughKeepsStack(w, c);
    AfterPop(w.stack);
    TopIsAlone(w.stack);
    hide HasSegment, HasDrain, Distinct, Owned, Queued, Counted, Drained, Slotted, EnterOnce, Shaped, Standing, Cover;
    forall i | 0 <= i < n
      ensures NestedAt(w', i)
    {
      assert NestedAt(w, i);
    }
  }

  lemma ThroughKeepsQueues(w: World, c: CellId)
    requires Inv(w) && OnTop(w, c) && w.cells[c].queue == []
    ensures var w' := Handle(w, c); Shaped(w') && Standing(w')
  {
    hide HasSegment, HasDrain, Distinct, Owned, Tracked, Queued, Counted, Drained, Slotted, EnterOnce, Paired, Nested;
    var w' := Handle(w, c);
    forall d | 0 <= d < |w.cells|
      ensures ShapedAt(w', d) && StandingAt(w', d)
    {
      assert ShapedAt(w, d) && StandingAt(w, d);
      if d != c {
        OnlyTop(w, d);
      }
    }
  }

  // ------------------------------------------------------- a cell enters a flow

  lemma TailOfQueue(q: seq<Handler>)
    requires q != [] && EnterOnce(q) && Paired(q)
    ensures EnterOnce(q[1..]) && Paired(q[1..])
    ensures q[0].Enter? ==> q[0] !in q[1..]
    ensures forall h :: h in q && h != q[0] ==> h in q[1..]
  {
  }

  /** A cell is through with its first handler, and flow x is not waiting any more. */
  lemma TailKeepsWaiting(w: World, w': World, c: CellId, x: nat)
    requires Sound(w) && Sound(w') && Queued(w) && c < |w.cells| == |w'.cells| && |w'.flows| == |w.flows|
    requires w.cells[c].queue != [] && Paired(w.cells[c].queue) && w'.cells[c].queue == w.cells[c].queue[1..]
    requires forall d :: 0 <= d < |w.cells| && d != c ==> w'.cells[d].queue == w.cells[d].queue
    requires forall g :: 0 <= g < |w.flows| && g != x ==> w'.flows[g].status == w.flows[g].status
    requires x < |w.flows| ==> !w'.flows[x].status.Waiting? && (w.flows[x].status.Waiting? ==> w.cells[c].queue[0] == Enter(x))
    requires w.cells[c].queue[0].Enter? ==> w.cells[c].queue[0].flow == x
    ensures Queued(w')
  {
    var q := w.cells[c].queue;
    TailOfQueue(q);
    hide EnterOnce, Paired;
    forall d, k | 0 <= d < |w'.cells| && 0 <= k < |w'.cells[d].queue| && w'.cells[d].queue[k].Enter?
      ensures w'.flows[w'.cells[d].queue[k].flow].status == Waiting(d)
    {
      var k' := if d == c then k + 1 else k;
      assert w'.cells[d].queue[k] == w.cells[d].queue[k'];
      assert w.flows[w.cells[d].queue[k'].flow].status == Waiting(d);
    }
    forall g | 0 <= g < |w'.flows| && w'.flows[g].status.Waiting?
      ensures w'.flows[g].status.on < |w'.cells| && Enter(g) in w'.cells[w'.flows[g].status.on].queue
    {
      assert g != x && Enter(g) in w.cells[w.flows[g].status.on].queue;
    }
  }

  lemma EnterKeepsFlows(w: World, c: CellId, f: FlowId)
    requires Inv(w) && OnTop(w, c) && w.cells[c].queue != [] && w.cells[c].queue[0] == Enter(f)
    ensures var w' := Handle(w, c); Sound(w') && Owned(w') && Counted(w')
  {
    hide HasSegment, HasDrain, Distinct, EnterOnce, Drained, Slotted, Tracked, Shaped, Nested, Standing;
    assert w.flows[f].status == Waiting(c);
  }

  lemma EnterKeepsWaiting(w: World, c: CellId, f: FlowId)
    requires Inv(w) && OnTop(w, c) && w.cells[c].queue != [] && w.cells[c].queue[0] == Enter(f)
    ensures Sound(Handle(w, c)) && Queued(Handle(w, c))
  {
    EnterKeepsFlows(w, c, f);
    assert ShapedAt(w, c);
    hide HasSegment, HasDrain, Distinct, Owned, Counted, Drained, Slotted, Tracked, EnterOnce, Paired, Shaped, Nested,
      Standing, Queued;
    TailKeepsWaiting(w, Handle(w, c), c, f);
  }

  lemma EnterKeepsStack(w: World, c: CellId, f: FlowId)
    requires Inv(w) && OnTop(w, c) && w.cells[c].queue != [] && w.cells[c].queue[0] == Enter(f)
    ensures var w' := Handle(w, c); Sound(w') && Tracked(w') && Drained(w') && Slotted(w')
  {
    EnterKeepsFlows(w, c, f);
    var top := Segment(f, Resumed(c, w.cells[c].served, w.cells[c].result), true);
    AfterPush(w.stack, top);
    assert w.flows[f].status == Waiting(c);
    hide Owned, Counted, HasSegment, HasDrain, Distinct, Queued, Shaped, Nested, Standing;
    NotRunning(w, f);
    DistinctPush(w.stack, top);
  }

  lemma NotRunning(w: World, f: FlowId)
    requires Sound(w) && Tracked(w) && f < |w.flows| && w.flows[f].status != Running
    ensures !HasSegment(w.stack, f)
  {
    hide HasSegment;
  }

  lemma EnterKeepsQueues(w: World, c: CellId, f: FlowId)
    requires Inv(w) && OnTop(w, c) && w.cells[c].queue != [] && w.cells[c].queue[0] == Enter(f)
    ensures var w' := Handle(w, c); Shaped(w') && Standing(w')
  {
    hide HasSegment, HasDrain, Distinct, Owned, Tracked, Counted, Drained, Slotted, Nested, EnterOnce, Paired;
    var w' := Handle(w, c);
    forall d | 0 <= d < |w.cells|
      ensures ShapedAt(w', d) && StandingAt(w', d)
    {
      assert ShapedAt(w, d) && StandingAt(w, d);
      if d == c {
        TailOfQueue(w.cells[c].queue);
        EntryAlone(w.cells[c].queue);
      } else {
        OnlyTop(w, d);
      }
    }
  }

  lemma EntryAlone(q: seq<Handler>)
    requires q != [] && Paired(q)
    ensures |q| > 1 && q[0].Enter? ==> q[1] == Guard(q[0].flow)
    ensures |q| > 1 ==> q[1..][|q| - 2] == q[|q| - 1]
    ensures |q| > 1 && q[0].Guard? ==> q[1].Enter?
  {
  }

  /** The frames that look at the cell on top: the step below it, if it set the cell going. */
  lemma BelowTop(w: World, c: CellId, i: nat)
    requires Inv(w) && OnTop(w, c) && i < |w.stack| - 1
    ensures w.stack[i].Adding? ==> w.stack[i + 1].Drain?
    ensures Concerns(w.stack[i], c) ==> w.stack[i].Adding? && i == |w.stack| - 2
  {
    hide HasSegment, HasDrain, Owned, Queued, Counted, Drained, Slotted, EnterOnce, Paired, Cover, Shaped, Standing;
    assert NestedAt(w, i);
  }

  /** What is nested below the cell on top stays as it was, whichever handler runs. */
  lemma BelowKept(w: World, w': World, c: CellId)
    requires Inv(w) && OnTop(w, c) && Sound(w')
    requires |w.stack| <= |w'.stack| && forall j :: 0 <= j < |w.stack| ==> w'.stack[j] == w.stack[j]
    requires |w.cells| == |w'.cells| && w'.cells[c].served > 0
    requires forall d :: 0 <= d < |w.cells| && d != c ==> Kept(w.cells[d], w'.cells[d])
    ensures forall i :: 0 <= i < |w.stack| ==> NestedAt(w', i)
  {
    hide HasSegment, HasDrain, Distinct, Owned, Tracked, Queued, Counted, Drained, Slotted, EnterOnce, Shaped, Standing,
      Cover, Kept;
    forall i | 0 <= i < |w.stack|
      ensures NestedAt(w', i)
    {
      assert NestedAt(w, i);
      if i < |w.stack| - 1 {
        BelowTop(w, c, i);
        if !Concerns(w.stack[i], c) {
          NestedKept(w, w', i);
        }
      }
    }
  }

  lemma EnterKeepsNested(w: World, c: CellId, f: FlowId)
    requires Inv(w) && OnTop(w, c) && w.cells[c].queue != [] && w.cells[c].queue[0] == Enter(f)
    ensures Sound(Handle(w, c)) && Nested(Handle(w, c))
  {
    EnterKeepsFlows(w, c, f);
    assert ShapedAt(w, c);
    EntryAlone(w.cells[c].queue);
    var w' := Handle(w, c);
    assert NestedAt(w', |w.stack|);
    hide HasSegment, HasDrain, Distinct, Owned, Tracked, Queued, Counted, Drained, Slotted, EnterOnce, Paired, Shaped,
      Standing, NestedAt;
    BelowKept(w, w', c);
  }

  // --------------------------------------------------- a cell comes to an errback

  lemma PassKeeps(w: World, c: CellId, f: FlowId)
    requires Inv(w) && OnTop(w, c) && w.cells[c].queue != [] && w.cells[c].queue[0] == Guard(f)
    requires !w.cells[c].result.Failure?
    ensures Inv(Handle(w, c))
  {
    hide Owned, Tracked, Queued, Counted, Drained, Slotted, Shaped, Nested, Standing;
    PassKeepsFlows(w, c, f);
    PassKeepsQueues(w, c, f);
    PassKeepsNested(w, c, f);
  }

  lemma PassKeepsWaiting(w: World, c: CellId, f: FlowId)
    requires Inv(w) && OnTop(w, c) && w.cells[c].queue != [] && w.cells[c].queue[0] == Guard(f)
    requires !w.cells[c].result.Failure?
    ensures Sound(Handle(w, c)) && Queued(Handle(w, c))
  {
    assert ShapedAt(w, c);
    hide HasSegment, HasDrain, Distinct, Owned, Counted, Drained, Slotted, Tracked, EnterOnce, Paired, Shaped, Nested,
      Standing, Queued;
    TailKeepsWaiting(w, Handle(w, c), c, |w.flows|);
  }

  lemma PassKeepsFlows(w: World, c: CellId, f: FlowId)
    requires Inv(w) && OnTop(w, c) && w.cells[c].queue != [] && w.cells[c].queue[0] == Guard(f)
    requires !w.cells[c].result.Failure?
    ensures var w' := Handle(w, c);
      && Sound(w') && Owned(w') && Counted(w') && Queued(w') && Tracked(w') && Drained(w') && Slotted(w')
  {
    PassKeepsWaiting(w, c, f);
    hide HasSegment, HasDrain, Distinct, EnterOnce, Paired, Shaped, Nested, Standing, Queued;
  }

  lemma PassKeepsQueues(w: World, c: CellId, f: FlowId)
    requires Inv(w) && OnTop(w, c) && w.cells[c].queue != [] && w.cells[c].queue[0] == Guard(f)
    requires !w.cells[c].result.Failure?
    ensures var w' := Handle(w, c); Shaped(w') && Standing(w')
  {
    hide HasSegment, HasDrain, Distinct, Owned, Tracked, Counted, Drained, Slotted, Nested, EnterOnce, Paired;
    var w' := Handle(w, c);
    forall d | 0 <= d < |w.cells|
      ensures ShapedAt(w', d) && StandingAt(w', d)
    {
      assert ShapedAt(w, d) && StandingAt(w, d);
      if d == c {
        TailOfQueue(w.cells[c].queue);
        EntryAlone(w.cells[c].queue);
      } else {
        OnlyTop(w, d);
      }
    }
  }

  lemma PassKeepsNested(w: World, c: CellId, f: FlowId)
    requires Inv(w) && OnTop(w, c) && w.cells[c].queue != [] && w.cells[c].queue[0] == Guard(f)
    requires !w.cells[c].result.Failure?
    ensures Sound(Handle(w, c)) && Nested(Handle(w, c))
  {
    PassKeepsFlows(w, c, f);
    assert ShapedAt(w, c);
    hide HasSegment, HasDrain, Distinct, Owned, Tracked, Queued, Counted, Drained, Slotted, EnterOnce, Paired, Shaped,
      Standing, NestedAt;
    BelowKept(w, Handle(w, c), c);
  }

  lemma CatchIsOwn(w: World, c: CellId, f: FlowId)
    requires Inv(w) && OnTop(w, c) && w.cells[c].queue != [] && w.cells[c].queue[0] == Guard(f)
    requires w.cells[c].result.Failure?
    ensures w.cells[c].raisedBy == Some(f) && w.flows[f].status == Status.Raised && w.flows[f].fired == 0
    ensures w.flows[f].ret != c && w.cells[w.flows[f].ret].settled.None?
    ensures !HasDrain(w.stack, w.flows[f].ret)
  {
    assert StandingAt(w, c) && ShapedAt(w, c);
    hide HasSegment, Distinct, Tracked, Queued, Drained, Slotted, Nested, EnterOnce, Paired;
  }

  lemma CatchKeepsFlows(w: World, c: CellId, f: FlowId)
    requires Inv(w) && OnTop(w, c) && w.cells[c].queue != [] && w.cells[c].queue[0] == Guard(f)
    requires w.cells[c].result.Failure?
    ensures var w' := Handle(w, c); Sound(w') && Owned(w') && Counted(w')
  {
    hide HasSegment, HasDrain, Distinct, EnterOnce, Drained, Slotted, Tracked, Queued, Shaped, Nested, Standing, Handle;
    CatchIsOwn(w, c, f);
    CatchEffect(w, c, f);
  }

  /** What a cell changes that hands a failure to the return_with of f. */
  lemma CatchEffect(w: World, c: CellId, f: FlowId)
    requires Sound(w) && OnTop(w, c) && w.cells[c].queue != [] && w.cells[c].queue[0] == Guard(f)
    requires w.cells[c].result.Failure? && w.flows[f].ret != c
    ensures var w', r := Handle(w, c), w.flows[f].ret;
      && w'.stack == w.stack + [Drain(r)]
      && |w'.flows| == |w.flows| && |w'.cells| == |w.cells|
      && (forall g :: 0 <= g < |w.flows| && g != f ==> w'.flows[g] == w.flows[g])
      && w'.flows[f] == w.flows[f].(status := Done, fired := w.flows[f].fired + 1)
      && (forall d :: 0 <= d < |w.cells| && d != c && d != r ==> w'.cells[d] == w.cells[d])
      && w'.cells[r] == w.cells[r].(settled := Some(w.cells[c].result), result := w.cells[c].result)
      && w'.cells[c] == w.cells[c].(queue := w.cells[c].queue[1..], result := Nothing, raisedBy := None)
  {
    assert Dirty(w.stack) == w.stack;
  }

  lemma CatchKeepsWaiting(w: World, c: CellId, f: FlowId)
    requires Inv(w) && OnTop(w, c) && w.cells[c].queue != [] && w.cells[c].queue[0] == Guard(f)
    requires w.cells[c].result.Failure?
    ensures Sound(Handle(w, c)) && Queued(Handle(w, c))
  {
    CatchIsOwn(w, c, f);
    CatchKeepsFlows(w, c, f);
    assert ShapedAt(w, c);
    hide HasSegment, HasDrain, Distinct, Owned, Counted, Drained, Slotted, Tracked, EnterOnce, Paired, Shaped, Nested,
      Standing, Queued;
    TailKeepsWaiting(w, Handle(w, c), c, f);
  }

  lemma CatchKeepsStack(w: World, c: CellId, f: FlowId)
    requires Inv(w) && OnTop(w, c) && w.cells[c].queue != [] && w.cells[c].queue[0] == Guard(f)
    requires w.cells[c].result.Failure?
    ensures var w' := Handle(w, c); Sound(w') && Tracked(w') && Drained(w') && Slotted(w')
  {
    CatchIsOwn(w, c, f);
    CatchKeepsFlows(w, c, f);
    var r := w.flows[f].ret;
    AfterPush(w.stack, Drain(r));
    DistinctPush(w.stack, Drain(r));
    assert Dirty(w.stack) == w.stack;
    hide HasSegment, HasDrain, Distinct, Owned, Queued, Counted, Shaped, Nested, Standing;
  }

  lemma CatchKeepsQueues(w: World, c: CellId, f: FlowId)
    requires Inv(w) && OnTop(w, c) && w.cells[c].queue != [] && w.cells[c].queue[0] == Guard(f)
    requires w.cells[c].result.Failure?
    ensures var w' := Handle(w, c); Shaped(w') && Standing(w')
  {
    hide HasSegment, HasDrain, Distinct, Owned, Tracked, Counted, Drained, Slotted, Nested, EnterOnce, Paired, Handle;
    CatchIsOwn(w, c, f);
    CatchEffect(w, c, f);
    var w' := Handle(w, c);
    forall d | 0 <= d < |w.cells|
      ensures ShapedAt(w', d) && StandingAt(w', d)
    {
      assert ShapedAt(w, d) && StandingAt(w, d);
      if d == c {
        TailOfQueue(w.cells[c].queue);
        EntryAlone(w.cells[c].queue);
      } else {
        OnlyTop(w, d);
      }
    }
  }

  lemma CatchKeepsNested(w: World, c: CellId, f: FlowId)
    requires Inv(w) && OnTop(w, c) && w.cells[c].queue != [] && w.cells[c].queue[0] == Guard(f)
    requires w.cells[c].result.Failure?
    ensures Sound(Handle(w, c)) && Nested(Handle(w, c))
  {
    CatchKeepsFlows(w, c, f);
    CatchIsOwn(w, c, f);
    assert ShapedAt(w, c);
    hide HasSegment, HasDrain, Distinct, Owned, Tracked, Queued, Counted, Drained, Slotted, EnterOnce, Paired, Shaped,
      Standing;
    var w' := Handle(w, c);
    assert Dirty(w.stack) == w.stack;
    assert NestedAt(w', |w.stack|);
    hide NestedAt;
    BelowKept(w, w', c);
  }

  /** Whatever handler comes next. */
  lemma HandleKeeps(w: World, c: CellId)
    requires Inv(w) && OnTop(w, c)
    ensures Inv(Handle(w, c))
  {
    hide Owned, Tracked, Queued, Counted, Drained, Slotted, Shaped, Nested, Standing, Handle;
    var q := w.cells[c].queue;
    if q == [] {
      ThroughKeepsStack(w, c);
      ThroughKeepsNested(w, c);
      ThroughKeepsQueues(w, c);
    } else if q[0].Enter? {
      EnterKeepsFlows(w, c, q[0].flow);
      EnterKeepsWaiting(w, c, q[0].flow);
      EnterKeepsStack(w, c, q[0].flow);
      EnterKeepsQueues(w, c, q[0].flow);
      EnterKeepsNested(w, c, q[0].flow);
    } else if w.cells[c].result.Failure? {
      CatchKeepsFlows(w, c, q[0].flow);
      CatchKeepsWaiting(w, c, q[0].flow);
      CatchKeepsStack(w, c, q[0].flow);
      CatchKeepsQueues(w, c, q[0].flow);
      CatchKeepsNested(w, c, q[0].flow);
    } else {
      PassKeeps(w, c, q[0].flow);
    }
  }

  /** Whatever happens next, the invariant holds after it. */
  lemma StepKeeps(w: World, a: Action)
    requires Inv(w) && Enabled(w, a)
    ensures Inv(Step(w, a))
  {
    hide Owned, Tracked, Queued, Counted, Drained, Slotted, Shaped, Nested, Standing, Finish, Settle, Raise, Handle, Attach;
    match a
    case Make => MakeKeeps(w);
    case Fire(c, o) =>
      FireKeepsFlows(w, c, o);
      FireKeepsStack(w, c, o);
      FireKeepsQueues(w, c, o);
    case Start =>
      StartKeepsFlows(w);
      StartKeepsStack(w);
      StartKeepsQueues(w);
    case Yield(c) =>
      YieldKeepsFlows(w, c);
      YieldKeepsWaiting(w, c);
      YieldKeepsStack(w, c);
      YieldKeepsQueues(w, c);
    case YieldPlain(v) => FinishKeeps(w, Value(v));
    case Return => FinishKeeps(w, Nothing);
    case Throw(e) => RaiseKeeps(w, e);
    case Resume =>
      if Top(w).Drain? {
        HandleKeeps(w, Top(w).cell);
      } else {
        AddKeeps(w, Top(w).flow, Top(w).cell);
      }
  }

  // --------------------------------------------------------------------- runs

  /** A run: the worlds it passes through, one act between any two. */
  predicate IsRun(worlds: seq<World>, acts: seq<Action>) {
    && |worlds| == |acts| + 1 && worlds[0] == Initial
    && forall i :: 0 <= i < |acts| ==>
         Sound(worlds[i]) && Enabled(worlds[i], acts[i]) && worlds[i + 1] == Step(worlds[i], acts[i])
  }

  lemma {:induction false} RunKeeps(worlds: seq<World>, acts: seq<Action>, n: nat)
    requires IsRun(worlds, acts) && n < |worlds|
    ensures Inv(worlds[n])
  {
    if n > 0 {
      RunKeeps(worlds, acts, n - 1);
      OneStep(worlds, acts, n - 1);
      StepKeeps(worlds[n - 1], acts[n - 1]);
    } else {
      InitialInv();
    }
  }

  lemma InitialInv()
    ensures Inv(Initial)
  {
  }

  lemma OneStep(worlds: seq<World>, acts: seq<Action>, n: nat)
    requires IsRun(worlds, acts) && n < |acts|
    ensures |worlds| == |acts| + 1
    ensures Sound(worlds[n]) && Enabled(worlds[n], acts[n]) && worlds[n + 1] == Step(worlds[n], acts[n])
  {
  }

  /** A deferred enters only a flow that is suspended on it, so no generator is
      entered twice. */
  lemma ResumesOnlySuspended(worlds: seq<World>, acts: seq<Action>, n: nat)
    requires IsRun(worlds, acts) && n < |acts| && Enters(worlds[n], acts[n])
    ensures var w, w' := worlds[n], worlds[n + 1];
      var c := Top(w).cell;
      var f := w.cells[c].queue[0].flow;
      && w.flows[f].status == Waiting(c) && !HasSegment(w.stack, f)
      && |w'.stack| == |w.stack| + 1 && Top(w').Segment? && Top(w').flow == f
      && Top(w').origin == Resumed(c, w.cells[c].served, w.cells[c].result)
  {
    RunKeeps(worlds, acts, n);
    hide Owned, Counted, Drained, Slotted, Shaped, Nested, Standing;
  }

  /** return_with is never fired twice, and never after a failed first step. */
  lemma FiredAtMostOnce(worlds: seq<World>, acts: seq<Action>, n: nat, f: FlowId)
    requires IsRun(worlds, acts) && n < |worlds| && f < |worlds[n].flows|
    ensures worlds[n].flows[f].fired <= 1
    ensures worlds[n].flows[f].status == Aborted ==> worlds[n].flows[f].fired == 0
    ensures worlds[n].flows[f].ret < |worlds[n].cells|
    ensures worlds[n].flows[f].fired == 1 <==> worlds[n].cells[worlds[n].flows[f].ret].settled.Some?
  {
    RunKeeps(worlds, acts, n);
  }

  // -------------------------------------------- exceptions that another flow gets

  /** The act enters a flow from a deferred. */
  predicate Enters(w: World, a: Action) {
    && a == Resume && w.stack != [] && Top(w).Drain? && Top(w).cell < |w.cells|
    && w.cells[Top(w).cell].queue != [] && w.cells[Top(w).cell].queue[0].Enter?
  }

  /** A generator on top, resumed by a deferred whose next handler enters another flow. */
  predicate Exposed(w: World, f: FlowId) {
    && w.stack != [] && Top(w).Segment? && Top(w).flow == f && Top(w).origin.Resumed?
    && Top(w).origin.cell < |w.cells|
    && var q := w.cells[Top(w).origin.cell].queue;
       q != [] && q[0].Enter?
  }

  /** That is so only for a generator that was resumed straight from its own
      yield of a deferred that had been fired and was at rest: its step has
      not come to adding its errback, and another flow has yielded the same
      deferred meanwhile. */
  lemma ExposedMeans(w: World, f: FlowId)
    requires Inv(w) && Exposed(w, f)
    ensures var c := Top(w).origin.cell;
      && |w.stack| >= 3 && w.stack[|w.stack| - 3] == Adding(f, c) && w.stack[|w.stack| - 2] == Drain(c)
      && w.cells[c].queue[0].flow != f
  {
    hide HasSegment, HasDrain, Distinct, Owned, Counted, Drained, Slotted, EnterOnce, Shaped, Standing;
    assert NestedAt(w, |w.stack| - 1);
    TopIsRunning(w);
  }

  /** The flow raised an exception, in a step before the n-th, while it was exposed. */
  predicate Escaped(worlds: seq<World>, acts: seq<Action>, n: nat, f: FlowId)
    requires |worlds| == |acts| + 1
  {
    exists m :: 0 <= m < n && m < |acts| && acts[m].Throw? && Exposed(worlds[m], f)
  }

  /** The exception of f is the result of this cell. */
  predicate StandsAt(w: World, f: FlowId, c: int) {
    0 <= c < |w.cells| && w.cells[c].raisedBy == Some(f)
  }

  ghost predicate Stands(w: World, f: FlowId) {
    exists c :: StandsAt(w, f, c)
  }

  /** And the next handler of that cell is another flow's. */
  predicate GoesAstray(w: World, f: FlowId, c: int) {
    StandsAt(w, f, c) && w.stack != [] && Top(w) == Drain(c) && w.cells[c].queue != [] && w.cells[c].queue[0].Enter?
  }

  lemma WhereItStands(w: World, f: FlowId, c: int)
    requires Inv(w) && StandsAt(w, f, c)
    ensures f < |w.flows| && w.flows[f].status == Status.Raised && Unhandled(w, c, f) && w.cells[c].result.Failure?
    ensures w.stack != [] && !Top(w).Segment? && Top(w).cell == c
    ensures forall d :: 0 <= d < |w.cells| && d != c ==> w.cells[d].raisedBy == None
  {
    hide Owned, Tracked, Queued, Counted, Drained, Slotted, Shaped, Nested, Cover;
    assert StandingAt(w, c);
    forall d | 0 <= d < |w.cells| && d != c
      ensures w.cells[d].raisedBy == None
    {
      assert StandingAt(w, d);
    }
  }

  /** An exception goes astray only where it was raised while its flow was exposed. */
  lemma AstrayAfterThrow(w: World, a: Action, f: FlowId, c: int)
    requires Inv(w) && Enabled(w, a) && GoesAstray(Step(w, a), f, c)
    ensures a.Throw? && Exposed(w, f) && Top(w).origin.cell == c
    ensures Step(w, a).cells[c].result == Failure(a.e)
  {
    hide Owned, Tracked, Queued, Counted, Drained, Slotted, Shaped, Nested, Standing, Cover, HasSegment, HasDrain;
    if w.stack == [] || Top(w).Segment? {
      Calm(w);
    } else if c < |w.cells| && StandsAt(w, f, c) {
      WhereItStands(w, f, c);
      AfterPop(w.stack);
      AstrayIsNew(w, f, c);
    }
  }

  lemma AstrayIsNew(w: World, f: FlowId, c: int)
    requires Inv(w) && w.stack != [] && !Top(w).Segment? && StandsAt(w, f, c)
    ensures !GoesAstray(Step(w, Resume), f, c)
  {
    WhereItStands(w, f, c);
    hide HasSegment, Distinct, Owned, Tracked, Queued, Counted, Drained, Slotted, Shaped, Nested, Standing;
  }

  /** What can become of a flow whose generator raised. */
  lemma RaisedStep(w: World, a: Action, f: FlowId)
    requires Inv(w) && Enabled(w, a) && f < |w.flows|
    ensures var w' := Step(w, a);
      && f < |w'.flows|
      && (w'.flows[f].status == Status.Raised ==>
            w.flows[f].status == Status.Raised || (Stands(w', f) && a.Throw? && Top(w).flow == f))
      && (w.flows[f].status == Status.Raised && !Stands(w, f) ==>
            w'.flows[f].status == Status.Raised && !Stands(w', f))
  {
    hide Owned, Queued, Counted, Drained, Slotted, Shaped, Nested, Standing, HasSegment, HasDrain, Distinct;
    var w' := Step(w, a);
    if a.Throw? {
      TopIsRunning(w);
      Calm(w);
      if Top(w).origin.Resumed? && Top(w).flow == f {
        assert StandsAt(w', f, Top(w).origin.cell);
      }
    } else if a == Resume && Top(w).Drain? && w.cells[Top(w).cell].queue != [] {
      HandledStep(w, Top(w).cell, f);
    } else if Enabled(w, Return) {
      TopIsRunning(w);
    }
    forall c | StandsAt(w', f, c) && !a.Throw?
      ensures StandsAt(w, f, c)
    {
    }
  }

  lemma HandledStep(w: World, c: CellId, f: FlowId)
    requires Inv(w) && OnTop(w, c) && w.cells[c].queue != [] && f < |w.flows|
    ensures var w' := Handle(w, c);
      && (w'.flows[f].status == Status.Raised ==> w.flows[f].status == Status.Raised)
      && (w.flows[f].status == Status.Raised && !Stands(w, f) ==> w'.flows[f].status == Status.Raised)
  {
    var h := w.cells[c].queue[0];
    if h.Enter? {
      hide Owned, Tracked, Counted, Drained, Slotted, Shaped, Nested, Standing, HasSegment, HasDrain, Distinct;
      assert w.flows[h.flow].status == Waiting(c);
    } else if w.cells[c].result.Failure? {
      CatchIsOwn(w, c, h.flow);
      assert StandsAt(w, h.flow, c);
    }
  }

  /** From one world of a run to the next: an exception that is no longer a
      result, and not in return_with, went to another flow. */
  lemma StandsStep(w: World, f: FlowId)
    requires Inv(w) && Enabled(w, Resume) && f < |w.flows| && Stands(w, f)
    ensures var w' := Step(w, Resume);
      Stands(w', f) || w'.flows[f].status == Done || exists c :: GoesAstray(w, f, c)
  {
    var c :| StandsAt(w, f, c);
    WhereItStands(w, f, c);
    if Top(w).Drain? && w.cells[c].queue != [] {
      if w.cells[c].queue[0].Enter? {
        assert GoesAstray(w, f, c);
      } else {
        CatchIsOwn(w, c, w.cells[c].queue[0].flow);
      }
    } else {
      assert StandsAt(Step(w, Resume), f, c);
    }
  }

  /** An exception is on its way, or has escaped. */
  lemma {:induction false} RaisedIsExplained(worlds: seq<World>, acts: seq<Action>, n: nat, f: FlowId)
    requires IsRun(worlds, acts) && n < |worlds| && f < |worlds[n].flows|
    requires worlds[n].flows[f].status == Status.Raised
    ensures Stands(worlds[n], f) || Escaped(worlds, acts, n, f)
  {
    hide Inv, Step, Enabled, Stands, Sound, Exposed;
    if n == 0 {
      assert false;
    }
    var w, a := worlds[n - 1], acts[n - 1];
    RunKeeps(worlds, acts, n - 1);
    OneStep(worlds, acts, n - 1);
    if f < |w.flows| && w.flows[f].status == Status.Raised {
      RaisedIsExplained(worlds, acts, n - 1, f);
      if !Escaped(worlds, acts, n - 1, f) && !Stands(worlds[n], f) {
        OnlyResume(w, a, f);
        StandsStep(w, f);
        var c :| GoesAstray(w, f, c);
        AstrayWasExposed(worlds, acts, n - 1, f, c);
      }
    } else {
      BornRaised(w, a, f);
    }
  }

  lemma OnlyResume(w: World, a: Action, f: FlowId)
    requires Inv(w) && Enabled(w, a) && Stands(w, f)
    ensures a == Resume
  {
    hide Inv;
    var c :| StandsAt(w, f, c);
    WhereItStands(w, f, c);
  }

  lemma BornRaised(w: World, a: Action, f: FlowId)
    requires Inv(w) && Enabled(w, a) && f < |Step(w, a).flows| && Step(w, a).flows[f].status == Status.Raised
    requires f < |w.flows| ==> w.flows[f].status != Status.Raised
    ensures Stands(Step(w, a), f)
  {
    if f < |w.flows| {
      hide Inv, Step;
      RaisedStep(w, a, f);
    }
  }

  lemma AstrayWasExposed(worlds: seq<World>, acts: seq<Action>, n: nat, f: FlowId, c: int)
    requires IsRun(worlds, acts) && n < |worlds| && GoesAstray(worlds[n], f, c)
    ensures 0 < n && acts[n - 1].Throw? && Exposed(worlds[n - 1], f) && Top(worlds[n - 1]).origin.cell == c
    ensures worlds[n].cells[c].result == Failure(acts[n - 1].e)
  {
    hide Step, Enabled, Inv, Exposed;
    if n > 0 {
      RunKeeps(worlds, acts, n - 1);
      OneStep(worlds, acts, n - 1);
      AstrayAfterThrow(worlds[n - 1], acts[n - 1], f, c);
    }
  }

  /** What escaped stays away: it is handed to the other flow in the next act. */
  lemma {:induction false} EscapedStaysAway(worlds: seq<World>, acts: seq<Action>, n: nat, f: FlowId)
    requires IsRun(worlds, acts) && n < |worlds| && Escaped(worlds, acts, n, f)
    ensures f < |worlds[n].flows| && worlds[n].flows[f].status == Status.Raised
    ensures !Stands(worlds[n], f) || exists c :: GoesAstray(worlds[n], f, c)
  {
    hide Inv, Step, Enabled, Stands, Exposed, Sound;
    var m :| 0 <= m < n && acts[m].Throw? && Exposed(worlds[m], f);
    RunKeeps(worlds, acts, n - 1);
    OneStep(worlds, acts, n - 1);
    var w, a := worlds[n - 1], acts[n - 1];
    if m == n - 1 {
      Escapes(w, a, f);
    } else {
      assert Escaped(worlds, acts, n - 1, f);
      EscapedStaysAway(worlds, acts, n - 1, f);
      if Stands(w, f) {
        var c :| GoesAstray(w, f, c);
        TakenByAnother(w, a, f, c);
      } else {
        RaisedStep(w, a, f);
      }
    }
  }

  lemma Escapes(w: World, a: Action, f: FlowId)
    requires Inv(w) && Enabled(w, a) && a.Throw? && Exposed(w, f)
    ensures var w' := Step(w, a); f < |w'.flows| && w'.flows[f].status == Status.Raised
    ensures exists c :: GoesAstray(Step(w, a), f, c)
  {
    ExposedMeans(w, f);
    hide Owned, Tracked, Queued, Counted, Drained, Slotted, Shaped, Nested, Standing;
    assert GoesAstray(Step(w, a), f, Top(w).origin.cell);
  }

  lemma TakenByAnother(w: World, a: Action, f: FlowId, c: int)
    requires Inv(w) && Enabled(w, a) && GoesAstray(w, f, c)
    ensures var w' := Step(w, a);
      f < |w'.flows| && w'.flows[f].status == Status.Raised && !Stands(w', f)
  {
    WhereItStands(w, f, c);
    assert w.flows[w.cells[c].queue[0].flow].status == Waiting(c);
    hide Owned, Tracked, Queued, Counted, Drained, Slotted, Shaped, Nested, Standing, HasSegment, HasDrain;
    assert a == Resume;
    forall d
      ensures !StandsAt(Step(w, a), f, d)
    {
    }
  }

  /** Whenever the reactor is idle, a flow whose first step did not raise has
      fired return_with, once, exactly unless it is suspended on a deferred
      that was never fired, or raised an exception while it was exposed. */
  lemma FiredOnceExactly(worlds: seq<World>, acts: seq<Action>, n: nat, f: FlowId)
    requires IsRun(worlds, acts) && n < |worlds| && f < |worlds[n].flows|
    requires worlds[n].stack == [] && worlds[n].flows[f].status != Aborted
    ensures var w := worlds[n];
      w.flows[f].fired == 1 <==>
        && !(exists c :: 0 <= c < |w.cells| && w.flows[f].status == Waiting(c) && w.cells[c].settled.None?)
        && !Escaped(worlds, acts, n, f)
  {
    RunKeeps(worlds, acts, n);
    var w := worlds[n];
    NoneStandsAtRest(w, f);
    if Escaped(worlds, acts, n, f) {
      EscapedStaysAway(worlds, acts, n, f);
    }
    if w.flows[f].status == Status.Raised {
      RaisedIsExplained(worlds, acts, n, f);
    }
    hide Escaped, Stands, IsRun, Standing, Nested, Shaped, Slotted, Owned;
    assert !HasSegment(w.stack, f);
    if w.flows[f].status.Waiting? {
      var c := w.flows[f].status.on;
      assert !HasDrain(w.stack, c);
      assert w.cells[c].settled.None?;
    }
  }

  lemma NoneStandsAtRest(w: World, f: FlowId)
    requires Inv(w) && w.stack == []
    ensures !Stands(w, f)
  {
    hide Inv;
    if Stands(w, f) {
      var c :| StandsAt(w, f, c);
      WhereItStands(w, f, c);
    }
  }

  /** An exception raised by a generator that is not exposed is what its
      return_with is fired with: in the next act, or, when its step has yet to
      add the errback, after the two that do so. */
  lemma OwnExceptionArrives(worlds: seq<World>, acts: seq<Action>, m: nat)
    requires IsRun(worlds, acts) && m < |acts| && acts[m].Throw?
    requires Top(worlds[m]).origin.Resumed? && !Exposed(worlds[m], Top(worlds[m]).flow)
    ensures Top(worlds[m]).origin.cell < |worlds[m].cells|
    ensures var w := worlds[m];
      var k := if w.cells[Top(w).origin.cell].queue == [] then 3 else 1;
      m + k < |acts| ==>
        var f := Top(w).flow;
        var w' := worlds[m + k + 1];
        && f < |w'.flows| && w'.flows[f].ret < |w'.cells|
        && w'.flows[f].fired == 1 && w'.cells[w'.flows[f].ret].settled == Some(Failure(acts[m].e))
  {
    RunKeeps(worlds, acts, m);
    OneStep(worlds, acts, m);
    hide Inv, Step, Exposed, Sound, IsRun, OnItsWay, Enabled;
    var w, e := worlds[m], acts[m].e;
    var f, c := Top(w).flow, Top(w).origin.cell;
    AfterThrow(w, e);
    if w.cells[c].queue != [] {
      if m + 1 < |acts| {
        OneStep(worlds, acts, m + 1);
        CaughtNext(worlds[m + 1], acts[m + 1], f, c, e);
      }
    } else if m + 3 < |acts| {
      OneStep(worlds, acts, m + 1);
      OneStep(worlds, acts, m + 2);
      OneStep(worlds, acts, m + 3);
      AddedNext(worlds[m + 1], acts[m + 1], worlds[m + 2], acts[m + 2], f, c, e);
      CaughtNext(worlds[m + 3], acts[m + 3], f, c, e);
    }
  }

  /** The exception of f is the result of c, whose turn it is. */
  predicate OnItsWay(w: World, f: FlowId, c: CellId, e: int) {
    Inv(w) && OnTop(w, c) && w.cells[c].raisedBy == Some(f) && w.cells[c].result == Failure(e)
  }

  lemma AfterThrow(w: World, e: int)
    requires Inv(w) && Enabled(w, Throw(e)) && Top(w).origin.Resumed? && !Exposed(w, Top(w).flow)
    ensures Top(w).origin.cell < |w.cells|
    ensures var c, f := Top(w).origin.cell, Top(w).flow;
      var w' := Step(w, Throw(e));
      && OnItsWay(w', f, c, e) && c < |w'.cells| && w'.cells[c].queue == w.cells[c].queue
      && (w.cells[c].queue != [] ==> w.cells[c].queue[0] == Guard(f))
      && (w.cells[c].queue == [] ==> |w'.stack| >= 2 && w'.stack[|w'.stack| - 2] == Adding(f, c))
  {
    StepKeeps(w, Throw(e));
    hide HasSegment, HasDrain, Distinct, Owned, Tracked, Queued, Counted, Drained, Slotted, Shaped, Standing;
    assert NestedAt(w, |w.stack| - 1);
  }

  lemma CaughtNext(w: World, a: Action, f: FlowId, c: CellId, e: int)
    requires OnItsWay(w, f, c, e) && Enabled(w, a) && c < |w.cells|
    requires w.cells[c].queue != [] && w.cells[c].queue[0] == Guard(f)
    ensures var w' := Step(w, a);
      && f < |w'.flows| && w'.flows[f].ret < |w'.cells|
      && w'.flows[f].fired == 1 && w'.cells[w'.flows[f].ret].settled == Some(Failure(e))
  {
    CatchIsOwn(w, c, f);
    hide HasSegment, HasDrain, Distinct, Owned, Tracked, Queued, Counted, Drained, Slotted, Shaped, Nested, Standing;
  }

  lemma AddedNext(w: World, a: Action, w': World, a': Action, f: FlowId, c: CellId, e: int)
    requires OnItsWay(w, f, c, e) && c < |w.cells| && w.cells[c].queue == []
    requires |w.stack| >= 2 && w.stack[|w.stack| - 2] == Adding(f, c)
    requires Enabled(w, a) && w' == Step(w, a) && Sound(w') && Enabled(w', a')
    ensures var w'' := Step(w', a');
      && OnItsWay(w'', f, c, e) && c < |w''.cells| && w''.cells[c].queue == [Guard(f)]
  {
    StepKeeps(w, a);
    StepKeeps(w', a');
    AfterPop(w.stack);
    TopIsAlone(w.stack);
    AfterPop(w'.stack);
    assert w.cells[c].settled.Some?;
    hide HasSegment, HasDrain, Distinct, Owned, Tracked, Queued, Counted, Drained, Slotted, Shaped, Nested, Standing;
  }

  // ------------------------------------------------------- what the slot holds

  /** What getResult() finds. It means to empty the slot, but assigns a local
      of Result.getResult, so reading changes nothing. */
  function Slot(w: World): Option<Outcome> {
    w.slot
  }

  /** What a deferred gives to the flow that it enters in the n-th act: what it
      was fired with if the flow is the first; the exception of the flow before
      it, if that was raised exposed, in the act just before; else None. */
  function Given(worlds: seq<World>, acts: seq<Action>, n: nat): Outcome
    requires IsRun(worlds, acts) && n < |acts| && Enters(worlds[n], acts[n])
  {
    var c := Top(worlds[n]).cell;
    var cell := worlds[n].cells[c];
    if cell.served == 0 then (if cell.settled.Some? then cell.settled.value else Nothing)
    else if n > 0 && acts[n - 1].Throw? && Top(worlds[n - 1]).origin.Resumed? && Top(worlds[n - 1]).origin.cell == c
    then Failure(acts[n - 1].e)
    else Nothing
  }

  /** A flow that is entered finds that in the slot. */
  lemma EnteredFinds(worlds: seq<World>, acts: seq<Action>, n: nat)
    requires IsRun(worlds, acts) && n < |acts| && Enters(worlds[n], acts[n])
    ensures Slot(worlds[n + 1]) == Some(Given(worlds, acts, n))
    ensures Top(worlds[n + 1]).origin.given == Given(worlds, acts, n)
  {
    var w := worlds[n];
    var c := Top(w).cell;
    RunKeeps(worlds, acts, n);
    OneStep(worlds, acts, n);
    assert StandingAt(w, c) && w.cells[c].settled.Some?;
    if w.cells[c].raisedBy.Some? {
      var f := w.cells[c].raisedBy.value;
      hide Inv;
      assert GoesAstray(w, f, c);
      AstrayWasExposed(worlds, acts, n, f, c);
    }
  }

  // -------------------------------------------------- what a flow ends with

  /** The act ends the flow with this outcome: the value of its last yield,
      None at its end, or its exception, raised after the first step and not
      while it was exposed. */
  predicate Ends(w: World, a: Action, f: FlowId, o: Outcome) {
    && w.stack != [] && Top(w).Segment? && Top(w).flow == f
    && match a
       case YieldPlain(v) => o == Value(v)
       case Return => o == Nothing
       case Throw(e) => o == Failure(e) && Top(w).origin.Resumed? && !Exposed(w, f)
       case _ => false
  }

  predicate EndsAt(worlds: seq<World>, acts: seq<Action>, m: int, f: FlowId, o: Outcome)
    requires |worlds| == |acts| + 1
  {
    0 <= m < |acts| && Ends(worlds[m], acts[m], f, o)
  }

  /** One of the first n acts did so. */
  ghost predicate EndedWith(worlds: seq<World>, acts: seq<Action>, n: nat, f: FlowId, o: Outcome)
    requires |worlds| == |acts| + 1
  {
    exists m :: m < n && EndsAt(worlds, acts, m, f, o)
  }

  /** The flow's return_with was fired with this. */
  predicate ReturnedWith(w: World, f: FlowId, o: Outcome) {
    f < |w.flows| && w.flows[f].ret < |w.cells| && w.cells[w.flows[f].ret].settled == Some(o)
  }

  /** The flow will not run again. */
  predicate Over(w: World, f: FlowId) {
    f < |w.flows| && w.flows[f].status in {Done, Aborted, Status.Raised}
  }

  /** The generator of the flow is left for good. */
  predicate Leaves(w: World, a: Action, f: FlowId) {
    w.stack != [] && Top(w).Segment? && Top(w).flow == f && (a.YieldPlain? || a.Return? || a.Throw?)
  }

  lemma RunLength(worlds: seq<World>, acts: seq<Action>)
    requires IsRun(worlds, acts)
    ensures |worlds| == |acts| + 1
  {
  }

  lemma LeftIsOver(w: World, a: Action, f: FlowId)
    requires Inv(w) && Enabled(w, a)
    ensures Leaves(w, a, f) ==> Over(Step(w, a), f) && !Over(w, f)
    ensures Over(w, f) ==> Over(Step(w, a), f)
  {
    if w.stack != [] && Top(w).Segment? {
      TopIsRunning(w);
    }
    hide HasSegment, HasDrain, Distinct, Owned, Tracked, Counted, Drained, Slotted, Shaped, Nested, Standing;
  }

  lemma {:induction false} StaysOver(worlds: seq<World>, acts: seq<Action>, m: nat, n: nat, f: FlowId)
    requires IsRun(worlds, acts) && m < n < |worlds| && Leaves(worlds[m], acts[m], f)
    ensures Over(worlds[n], f)
  {
    hide Inv, Step, Sound, Leaves, Over, IsRun, Enabled;
    RunLength(worlds, acts);
    RunKeeps(worlds, acts, n - 1);
    OneStep(worlds, acts, n - 1);
    LeftIsOver(worlds[n - 1], acts[n - 1], f);
    if m < n - 1 {
      StaysOver(worlds, acts, m, n - 1, f);
    }
  }

  /** A generator is left once. */
  lemma LeftOnce(worlds: seq<World>, acts: seq<Action>, m: nat, n: nat, f: FlowId)
    requires IsRun(worlds, acts) && m < |acts| && n < |acts|
    requires Leaves(worlds[m], acts[m], f) && Leaves(worlds[n], acts[n], f)
    ensures m == n
  {
    hide Inv, Step, Sound, Leaves, Over, IsRun, Enabled;
    RunLength(worlds, acts);
    OnceFrom(worlds, acts, m, n, f);
    OnceFrom(worlds, acts, n, m, f);
  }

  lemma OnceFrom(worlds: seq<World>, acts: seq<Action>, m: nat, n: nat, f: FlowId)
    requires IsRun(worlds, acts) && m < |acts| && n < |acts|
    requires Leaves(worlds[m], acts[m], f) && Leaves(worlds[n], acts[n], f)
    ensures !(m < n)
  {
    hide Inv, Step, Sound, Leaves, Over, IsRun, Enabled;
    RunLength(worlds, acts);
    if m < n {
      StaysOver(worlds, acts, m, n, f);
      RunKeeps(worlds, acts, n);
      OneStep(worlds, acts, n);
      LeftIsOver(worlds[n], acts[n], f);
    }
  }

  /** An exception that stands as a result was raised in this act, or stood there before. */
  lemma StoodBefore(w: World, a: Action, f: FlowId, c: int)
    requires Inv(w) && Enabled(w, a) && StandsAt(Step(w, a), f, c)
    ensures var r := Step(w, a).cells[c].result;
      || (StandsAt(w, f, c) && r == w.cells[c].result)
      || (a.Throw? && Top(w).flow == f && Top(w).origin.Resumed? && r == Failure(a.e))
  {
    hide Owned, Tracked, Queued, Counted, Drained, Slotted, Shaped, Nested, Standing, HasDrain;
    if a == Resume && Top(w).Drain? {
      StoodInHandler(w, Top(w).cell, f, c);
    } else if !a.Throw? {
      hide Raise, Handle;
      if a.Yield? {
        assert c < |w.cells|;
      }
      if StandsAt(w, f, c) {
        WhereItStands(w, f, c);
      }
    }
  }

  lemma StoodInHandler(w: World, d: CellId, f: FlowId, c: int)
    requires Inv(w) && OnTop(w, d) && StandsAt(Handle(w, d), f, c)
    ensures StandsAt(w, f, c) && Handle(w, d).cells[c].result == w.cells[c].result
  {
    hide Owned, Tracked, Queued, Counted, Drained, Slotted, Shaped, Nested, HasDrain;
    if c < |w.cells| && StandsAt(w, f, c) {
      WhereItStands(w, f, c);
    }
    if w.cells[d].queue != [] && w.cells[d].queue[0].Guard? && w.cells[d].result.Failure? {
      CatchIsOwn(w, d, w.cells[d].queue[0].flow);
    }
  }

  lemma {:induction false} StandsSince(worlds: seq<World>, acts: seq<Action>, n: nat, f: FlowId, c: int) returns (m: nat)
    requires IsRun(worlds, acts) && n < |worlds| && StandsAt(worlds[n], f, c)
    ensures m < n && m < |acts| && Leaves(worlds[m], acts[m], f) && acts[m].Throw?
    ensures Top(worlds[m]).origin.Resumed? && worlds[n].cells[c].result == Failure(acts[m].e)
  {
    hide Inv, Step, Sound, IsRun, Enabled;
    RunLength(worlds, acts);
    if n == 0 {
      NothingStands(worlds, acts, f, c);
    }
    RunKeeps(worlds, acts, n - 1);
    OneStep(worlds, acts, n - 1);
    var w, a := worlds[n - 1], acts[n - 1];
    StoodBefore(w, a, f, c);
    if StandsAt(w, f, c) && worlds[n].cells[c].result == w.cells[c].result {
      m := StandsSince(worlds, acts, n - 1, f, c);
    } else {
      m := n - 1;
      assert Leaves(w, a, f) by { ThrowLeaves(w, a); }
    }
  }

  lemma NothingStands(worlds: seq<World>, acts: seq<Action>, f: FlowId, c: int)
    requires IsRun(worlds, acts)
    ensures !StandsAt(worlds[0], f, c)
  {
  }

  lemma ThrowLeaves(w: World, a: Action)
    requires Enabled(w, a) && a.Throw?
    ensures Leaves(w, a, Top(w).flow)
  {
  }

  /** How return_with comes to be fired: the generator ends, or its exception is handed on. */
  lemma JustReturned(w: World, a: Action, f: FlowId, o: Outcome)
    requires Inv(w) && Enabled(w, a) && ReturnedWith(Step(w, a), f, o) && !ReturnedWith(w, f, o)
    ensures Ends(w, a, f, o) || exists c :: StandsAt(w, f, c) && w.cells[c].result == o
  {
    if a == Resume {
      if Top(w).Drain? {
        ReturnedByHandler(w, Top(w).cell, f, o);
      }
    } else {
      ReturnedByGenerator(w, a, f, o);
    }
  }

  lemma ReturnedByHandler(w: World, c: CellId, f: FlowId, o: Outcome)
    requires Inv(w) && OnTop(w, c) && ReturnedWith(Handle(w, c), f, o) && !ReturnedWith(w, f, o)
    ensures StandsAt(w, f, c) && w.cells[c].result == o
  {
    var q := w.cells[c].queue;
    if q != [] && q[0].Guard? && w.cells[c].result.Failure? {
      CatchIsOwn(w, c, q[0].flow);
      assert w.cells[w.flows[f].ret].owner == Some(f);
    }
    hide HasSegment, HasDrain, Distinct, Tracked, Counted, Drained, Slotted, Shaped, Nested, Standing, Queued;
  }

  lemma ReturnedByGenerator(w: World, a: Action, f: FlowId, o: Outcome)
    requires Inv(w) && Enabled(w, a) && a != Resume && ReturnedWith(Step(w, a), f, o) && !ReturnedWith(w, f, o)
    ensures Ends(w, a, f, o)
  {
    assert f < |w.flows| ==> w.cells[w.flows[f].ret].owner == Some(f);
    hide HasSegment, HasDrain, Distinct, Tracked, Counted, Drained, Slotted, Shaped, Nested, Standing, Queued;
  }

  /** What return_with was fired with is what the flow ended with. */
  lemma {:induction false} ReturnedMeans(worlds: seq<World>, acts: seq<Action>, n: nat, f: FlowId, o: Outcome)
    requires IsRun(worlds, acts) && n < |worlds| && ReturnedWith(worlds[n], f, o)
    ensures EndedWith(worlds, acts, n, f, o)
  {
    hide Inv, Step, Sound, Enabled, Ends, ReturnedWith, Leaves, Escaped;
    if n == 0 {
      NothingReturned(worlds[0], f, o);
    }
    var w, a := worlds[n - 1], acts[n - 1];
    RunKeeps(worlds, acts, n - 1);
    OneStep(worlds, acts, n - 1);
    if ReturnedWith(w, f, o) {
      ReturnedMeans(worlds, acts, n - 1, f, o);
      EndedBefore(worlds, acts, n, f, o);
    } else {
      JustReturned(w, a, f, o);
      if Ends(w, a, f, o) {
        assert EndsAt(worlds, acts, n - 1, f, o);
      } else {
        var c :| StandsAt(w, f, c) && w.cells[c].result == o;
        var m := StandsSince(worlds, acts, n - 1, f, c);
        NotEscaped(worlds, acts, n, f, o);
        assert !Exposed(worlds[m], f) by { EscapedThen(worlds, acts, n, m, f); }
        assert EndsAt(worlds, acts, m, f, o) by { ThrowEnds(worlds[m], acts[m], f); }
      }
    }
  }

  lemma NothingReturned(w: World, f: FlowId, o: Outcome)
    requires w == Initial
    ensures !ReturnedWith(w, f, o)
  {
  }

  lemma EndedBefore(worlds: seq<World>, acts: seq<Action>, n: nat, f: FlowId, o: Outcome)
    requires |worlds| == |acts| + 1 && 0 < n && EndedWith(worlds, acts, n - 1, f, o)
    ensures EndedWith(worlds, acts, n, f, o)
  {
    var m :| m < n - 1 && EndsAt(worlds, acts, m, f, o);
  }

  lemma NotEscaped(worlds: seq<World>, acts: seq<Action>, n: nat, f: FlowId, o: Outcome)
    requires IsRun(worlds, acts) && n < |worlds| && ReturnedWith(worlds[n], f, o)
    ensures !Escaped(worlds, acts, n, f)
  {
    hide IsRun, Escaped, Stands, Exposed, Step;
    RunLength(worlds, acts);
    RunKeeps(worlds, acts, n);
    if Escaped(worlds, acts, n, f) {
      EscapedStaysAway(worlds, acts, n, f);
      hide Owned, Tracked, Queued, Drained, Slotted, Shaped, Nested, Standing;
    }
  }

  lemma EscapedThen(worlds: seq<World>, acts: seq<Action>, n: nat, m: nat, f: FlowId)
    requires |worlds| == |acts| + 1 && m < n && m < |acts| && acts[m].Throw? && !Escaped(worlds, acts, n, f)
    ensures !Exposed(worlds[m], f)
  {
    hide Exposed;
  }

  lemma ThrowEnds(w: World, a: Action, f: FlowId)
    requires Leaves(w, a, f) && a.Throw? && Top(w).origin.Resumed? && !Exposed(w, f)
    ensures Ends(w, a, f, Failure(a.e))
  {
  }

  lemma EndsLeaves(w: World, a: Action, f: FlowId, o: Outcome)
    requires Ends(w, a, f, o)
    ensures Leaves(w, a, f) && (a.Throw? ==> !Exposed(w, f))
    ensures forall o' :: Ends(w, a, f, o') ==> o' == o
  {
  }

  /** At every moment of every run: a flow's return_with was fired with an
      outcome exactly when it was fired and the flow ended with that outcome. */
  lemma ReturnedExactly(worlds: seq<World>, acts: seq<Action>, n: nat, f: FlowId, o: Outcome)
    requires IsRun(worlds, acts) && n < |worlds| && f < |worlds[n].flows|
    ensures ReturnedWith(worlds[n], f, o) <==> worlds[n].flows[f].fired == 1 && EndedWith(worlds, acts, n, f, o)
  {
    FiredAtMostOnce(worlds, acts, n, f);
    hide IsRun, Ends, Leaves, Exposed;
    if ReturnedWith(worlds[n], f, o) {
      ReturnedMeans(worlds, acts, n, f, o);
    }
    if worlds[n].flows[f].fired == 1 && EndedWith(worlds, acts, n, f, o) {
      var o' := worlds[n].cells[worlds[n].flows[f].ret].settled.value;
      ReturnedMeans(worlds, acts, n, f, o');
      var m :| m < n && EndsAt(worlds, acts, m, f, o);
      var m' :| m' < n && EndsAt(worlds, acts, m', f, o');
      EndsLeaves(worlds[m], acts[m], f, o);
      EndsLeaves(worlds[m'], acts[m'], f, o');
      LeftOnce(worlds, acts, m, m', f);
    }
  }

  /** A value, or None, is handed over in the very act that ends the flow. */
  lemma ReturnsAtOnce(worlds: seq<World>, acts: seq<Action>, m: nat, f: FlowId, o: Outcome)
    requires IsRun(worlds, acts) && m < |acts| && Ends(worlds[m], acts[m], f, o) && !acts[m].Throw?
    ensures ReturnedWith(worlds[m + 1], f, o)
  {
    RunKeeps(worlds, acts, m);
    OneStep(worlds, acts, m);
    hide HasSegment, HasDrain, Distinct, Owned, Tracked, Counted, Drained, Slotted, Shaped, Nested, Standing, Queued;
  }

  /** And whenever nothing is running, exactly when the flow ended with it: its
      value, None, or its exception. */
  lemma ReturnedAtRestExactly(worlds: seq<World>, acts: seq<Action>, n: nat, f: FlowId, o: Outcome)
    requires IsRun(worlds, acts) && n < |worlds| && f < |worlds[n].flows|
    requires worlds[n].stack == [] && worlds[n].flows[f].status != Aborted
    ensures ReturnedWith(worlds[n], f, o) <==> EndedWith(worlds, acts, n, f, o)
  {
    ReturnedExactly(worlds, acts, n, f, o);
    FiredOnceExactly(worlds, acts, n, f);
    hide IsRun, Ends, Leaves, ReturnedWith, Exposed;
    RunLength(worlds, acts);
    if EndedWith(worlds, acts, n, f, o) {
      var m :| m < n && EndsAt(worlds, acts, m, f, o);
      EndsLeaves(worlds[m], acts[m], f, o);
      StaysOver(worlds, acts, m, n, f);
      if Escaped(worlds, acts, n, f) {
        var m' :| 0 <= m' < n && m' < |acts| && acts[m'].Throw? && Exposed(worlds[m'], f);
        ExposedLeaves(worlds[m'], acts[m'], f);
        LeftOnce(worlds, acts, m, m', f);
      }
    }
  }

  lemma ExposedLeaves(w: World, a: Action, f: FlowId)
    requires Exposed(w, f) && a.Throw?
    ensures Leaves(w, a, f)
  {
  }

  /** A deferred of the application, on the other hand, holds what it was fired with. */
  lemma {:induction false} FiredExactly(worlds: seq<World>, acts: seq<Action>, n: nat, c: CellId, o: Outcome)
    requires IsRun(worlds, acts) && n < |worlds| && c < |worlds[n].cells| && worlds[n].cells[c].owner == None
    ensures worlds[n].cells[c].settled == Some(o) <==> exists m :: 0 <= m < n && acts[m] == Fire(c, o)
  {
    hide Inv, Step, Enabled, Sound;
    if n > 0 {
      RunKeeps(worlds, acts, n - 1);
      OneStep(worlds, acts, n - 1);
      FiredStep(worlds[n - 1], acts[n - 1], c, o);
      if c < |worlds[n - 1].cells| {
        FiredExactly(worlds, acts, n - 1, c, o);
      } else {
        NoneFired(worlds, acts, n - 1, c);
      }
    }
  }

  lemma FiredStep(w: World, a: Action, c: CellId, o: Outcome)
    requires Inv(w) && Enabled(w, a) && c < |Step(w, a).cells| && Step(w, a).cells[c].owner == None
    ensures c < |w.cells| ==> w.cells[c].owner == None
    ensures Step(w, a).cells[c].settled == Some(o) <==> a == Fire(c, o) || (c < |w.cells| && w.cells[c].settled == Some(o))
  {
    hide HasSegment, HasDrain, Distinct, Owned, Tracked, Counted, Drained, Slotted, Shaped, Nested, Standing, Queued;
    if a == Resume && Top(w).Drain? {
      UnownedHandled(w, Top(w).cell, c);
    } else if a.YieldPlain? || a.Return? {
      hide Handle, Raise, Sound;
      OwnsItsReturn(w, Top(w).flow);
    } else {
      hide Handle;
    }
  }

  lemma OwnsItsReturn(w: World, f: FlowId)
    requires Inv(w) && f < |w.flows|
    ensures w.flows[f].ret < |w.cells| && w.cells[w.flows[f].ret].owner == Some(f)
  {
  }

  lemma UnownedHandled(w: World, d: CellId, c: CellId)
    requires Inv(w) && OnTop(w, d) && c < |w.cells| && Handle(w, d).cells[c].owner == None
    ensures w.cells[c].owner == None && Handle(w, d).cells[c].settled == w.cells[c].settled
  {
    assert forall f :: 0 <= f < |w.flows| ==> w.cells[w.flows[f].ret].owner == Some(f);
    hide HasSegment, HasDrain, Distinct, Owned, Tracked, Counted, Drained, Slotted, Shaped, Nested, Standing, Queued;
  }

  lemma {:induction false} NoneFired(worlds: seq<World>, acts: seq<Action>, n: nat, c: CellId)
    requires IsRun(worlds, acts) && n < |worlds| && c >= |worlds[n].cells|
    ensures forall m, o :: 0 <= m < n ==> acts[m] != Fire(c, o)
  {
    hide Inv, Step, Sound;
    if n > 0 {
      RunKeeps(worlds, acts, n - 1);
      OneStep(worlds, acts, n - 1);
      CellsStay(worlds[n - 1], acts[n - 1]);
      NoneFired(worlds, acts, n - 1, c);
    }
  }

  lemma CellsStay(w: World, a: Action)
    requires Inv(w) && Enabled(w, a)
    ensures |w.cells| <= |Step(w, a).cells| && (a.Fire? ==> a.c < |w.cells|)
  {
    hide HasSegment, HasDrain, Owned, Tracked, Counted, Drained, Slotted, Shaped, Nested, Standing, Queued;
  }

  /** So a flow that waits for another one finds in the slot what that one
      ended with: the first to be entered from its return_with does. */
  lemma WaiterFindsReturn(worlds: seq<World>, acts: seq<Action>, n: nat, f: FlowId)
    requires IsRun(worlds, acts) && n < |acts| && Enters(worlds[n], acts[n])
    requires var cell := worlds[n].cells[Top(worlds[n]).cell]; cell.owner == Some(f) && cell.served == 0
    ensures Slot(worlds[n + 1]).Some? && EndedWith(worlds, acts, n, f, Slot(worlds[n + 1]).value)
  {
    var w, c := worlds[n], Top(worlds[n]).cell;
    RunKeeps(worlds, acts, n);
    EnteredFinds(worlds, acts, n);
    assert w.stack[|w.stack| - 1] == Drain(c) && w.cells[c].settled.Some?;
    assert w.flows[f].ret == c;
    hide Inv, Enters;
    ReturnedMeans(worlds, acts, n, f, w.cells[c].settled.value);
  }

  /** And one that waits for a deferred of the application what it was fired with. */
  lemma WaiterFindsFired(worlds: seq<World>, acts: seq<Action>, n: nat)
    requires IsRun(worlds, acts) && n < |acts| && Enters(worlds[n], acts[n])
    requires var cell := worlds[n].cells[Top(worlds[n]).cell]; cell.owner == None && cell.served == 0
    ensures Slot(worlds[n + 1]).Some?
    ensures exists m :: 0 <= m < n && acts[m] == Fire(Top(worlds[n]).cell, Slot(worlds[n + 1]).value)
  {
    var w, c := worlds[n], Top(worlds[n]).cell;
    RunKeeps(worlds, acts, n);
    EnteredFinds(worlds, acts, n);
    assert w.stack[|w.stack| - 1] == Drain(c) && w.cells[c].settled.Some?;
    hide Inv, Enters;
    FiredExactly(worlds, acts, n, c, w.cells[c].settled.value);
  }

  /** Where a generator on the stack was resumed. */
  predicate ResumedAt(worlds: seq<World>, acts: seq<Action>, r: int, frame: Frame)
    requires IsRun(worlds, acts)
  {
    && 0 <= r < |acts| && Enters(worlds[r], acts[r]) && frame.Segment? && frame.origin.Resumed?
    && Top(worlds[r]).cell == frame.origin.cell
    && worlds[r].cells[frame.origin.cell].queue[0].flow == frame.flow
    && worlds[r].cells[frame.origin.cell].served == frame.origin.turn
    && Given(worlds, acts, r) == frame.origin.given
  }

  lemma {:induction false} EverySegmentWasResumed(worlds: seq<World>, acts: seq<Action>, n: nat, i: nat)
    requires IsRun(worlds, acts) && n < |worlds| && i < |worlds[n].stack|
    requires worlds[n].stack[i].Segment? && worlds[n].stack[i].origin.Resumed?
    ensures exists r :: r < n && ResumedAt(worlds, acts, r, worlds[n].stack[i])
  {
    hide Sound, Inv, Given, Enters;
    var x := worlds[n].stack[i];
    if n == 0 {
      assert false;
    }
    OneStep(worlds, acts, n - 1);
    NewSegment(worlds[n - 1], acts[n - 1], i);
    if i < |worlds[n - 1].stack| && Alike(worlds[n - 1].stack[i], x) {
      EverySegmentWasResumed(worlds, acts, n - 1, i);
      var r :| r < n - 1 && ResumedAt(worlds, acts, r, worlds[n - 1].stack[i]);
      assert ResumedAt(worlds, acts, r, x);
    } else {
      EnteredFinds(worlds, acts, n - 1);
      EnteredFrame(worlds[n - 1], acts[n - 1]);
      assert ResumedAt(worlds, acts, n - 1, x);
    }
  }

  lemma NewSegment(w: World, a: Action, i: nat)
    requires Sound(w) && Enabled(w, a) && i < |Step(w, a).stack|
    requires var x := Step(w, a).stack[i]; x.Segment? && x.origin.Resumed?
    ensures var x := Step(w, a).stack[i];
      || (i < |w.stack| && Alike(w.stack[i], x))
      || (Enters(w, a) && i == |Step(w, a).stack| - 1)
  {
    hide HasDrain;
  }

  lemma EnteredFrame(w: World, a: Action)
    requires Sound(w) && Enabled(w, a) && Enters(w, a)
    ensures var c, x := Top(w).cell, Top(Step(w, a));
      && x.Segment? && x.flow == w.cells[c].queue[0].flow && x.origin.Resumed?
      && x.origin.cell == c && x.origin.turn == w.cells[c].served
  {
  }

  /** In every run, a generator that was resumed and has neither started a flow
      nor fired a deferred since finds in the global slot what it was given
      when its deferred entered it; one in its first step finds the slot empty. */
  lemma SlotIsOwnResult(worlds: seq<World>, acts: seq<Action>, n: nat)
    requires IsRun(worlds, acts) && n < |worlds|
    requires worlds[n].stack != [] && Top(worlds[n]).Segment? && Top(worlds[n]).clean
    ensures var top := Top(worlds[n]);
      if top.origin.Started? then Slot(worlds[n]) == None
      else exists r :: r < n && ResumedAt(worlds, acts, r, top) && Slot(worlds[n]) == Some(Given(worlds, acts, r))
  {
    RunKeeps(worlds, acts, n);
    if Top(worlds[n]).origin.Resumed? {
      EverySegmentWasResumed(worlds, acts, n, |worlds[n].stack| - 1);
    }
  }

  /** What the flow that was entered last, at the n-th moment, was given. */
  function LastEntry(worlds: seq<World>, acts: seq<Action>, n: nat): Option<Outcome>
    requires IsRun(worlds, acts) && n < |worlds|
  {
    if n == 0 then None
    else if acts[n - 1] == Start then None
    else if Enters(worlds[n - 1], acts[n - 1]) then Some(Given(worlds, acts, n - 1))
    else LastEntry(worlds, acts, n - 1)
  }

  /** And at every moment, also for a generator that has started or woken
      others meanwhile: the slot belongs to the flow that was entered last. */
  lemma {:induction false} SlotIsLastEntry(worlds: seq<World>, acts: seq<Action>, n: nat)
    requires IsRun(worlds, acts) && n < |worlds|
    ensures Slot(worlds[n]) == LastEntry(worlds, acts, n)
  {
    hide Given, Inv, Sound;
    if n > 0 {
      SlotIsLastEntry(worlds, acts, n - 1);
      OneStep(worlds, acts, n - 1);
      if Enters(worlds[n - 1], acts[n - 1]) {
        EnteredFinds(worlds, acts, n - 1);
      }
    }
  }

  // ---------------------------------------------------------------- in place

  /** The module's global and the objects it drives, changed in place: what
      step, callback, errback and unhandled_exception of Flow, and the
      deferreds that call them, do. The run so far is kept as ghost state. */
  class Reactor {
    var currentResult: Option<Outcome>
    var flows: seq<FlowState>
    var cells: seq<Cell>
    var stack: seq<Frame>

    ghost var worlds: seq<World>
    ghost var acts: seq<Action>

    ghost function Now(): World
      reads this
    {
      World(currentResult, flows, cells, stack)
    }

    ghost predicate Valid()
      reads this
    {
      IsRun(worlds, acts) && worlds[|acts|] == Now() && Inv(Now())
    }

    /** The state after one more act. */
    twostate predicate Did(a: Action)
      reads this
    {
      && old(Inv(Now())) && Enabled(old(Now()), a)
      && Valid() && Now() == Step(old(Now()), a)
      && worlds == old(worlds) + [Now()] && acts == old(acts) + [a]
    }

    constructor ()
      ensures Valid() && Now() == Initial && acts == []
    {
      currentResult, flows, cells, stack := None, [], [], [];
      worlds, acts := [Initial], [];
    }

    ghost method Record(a: Action, before: World)
      requires IsRun(worlds, acts) && worlds[|acts|] == before && Inv(before)
      requires Enabled(before, a) && Now() == Step(before, a)
      modifies this`worlds, this`acts
      ensures Valid() && worlds == old(worlds) + [Now()] && acts == old(acts) + [a]
    {
      hide Owned, Tracked, Queued, Counted, Drained, Slotted, Shaped, Nested, Standing, Step, Enabled, Sound;
      StepKeeps(before, a);
      RunGrows(worlds, acts, before, a);
      worlds := worlds + [Now()];
      acts := acts + [a];
    }

    /** `defer.Deferred()`. */
    method MakeDeferred() returns (d: CellId)
      requires Valid() && Enabled(Now(), Make)
      modifies this
      ensures Did(Make) && d == old(|cells|)
    {
      ghost var before := Now();
      d := |cells|;
      cells := cells + [Cell(None, Nothing, [], None, 0, None)];
      Record(Make, before);
    }

    /** `go(generator)`: Flow.__init__ clears the global and makes the first step. */
    method Go() returns (f: FlowId)
      requires Valid() && Enabled(Now(), Start)
      modifies this
      ensures Did(Start) && f == old(|flows|) && currentResult == None
    {
      ghost var before := Now();
      f := |flows|;
      cells := cells + [Cell(None, Nothing, [], None, 0, Some(f))];
      flows := flows + [FlowState(Running, |cells| - 1, 0)];
      currentResult := None;
      stack := Dirty(stack) + [Segment(f, Started, true)];
      Record(Start, before);
    }

    /** The firing of a deferred: its handlers come next. */
    method Settled(c: CellId, o: Outcome)
      requires c < |cells|
      modifies this`cells, this`stack
      ensures Now() == Settle(old(Now()), c, o)
    {
      cells := cells[c := cells[c].(settled := Some(o), result := o)];
      stack := Dirty(stack) + [Drain(c)];
    }

    /** `d.callback(result)` or `d.errback(failure)` by the application. */
    method FireDeferred(c: CellId, o: Outcome)
      requires Valid() && Enabled(Now(), Fire(c, o))
      modifies this
      ensures Did(Fire(c, o))
    {
      ghost var before := Now();
      Settled(c, o);
      Record(Fire(c, o), before);
    }

    /** `d.addCallbacks(...)` or `d.addErrback(...)`: run at once if the deferred
        was fired before and is not running handlers now. */
    method AddHandler(c: CellId, h: Handler)
      requires c < |cells|
      modifies this`cells, this`stack
      ensures Now() == Attach(old(Now()), c, h)
    {
      var running := IsDraining(c);
      cells := cells[c := cells[c].(queue := cells[c].queue + [h])];
      if cells[c].settled.Some? && !running {
        stack := stack + [Drain(c)];
      }
    }

    /** step, when next() gave a deferred, up to the first handler added. */
    method StepYieldedDeferred(c: CellId)
      requires Valid() && Enabled(Now(), Yield(c))
      modifies this
      ensures Did(Yield(c))
    {
      ghost var before := Now();
      var f := stack[|stack| - 1].flow;
      stack := stack[..|stack| - 1] + [Adding(f, c)];
      flows := flows[f := flows[f].(status := Waiting(c))];
      AddHandler(c, Enter(f));
      Record(Yield(c), before);
    }

    /** The rest of that step: unhandled_exception is added too. */
    method StepAddsErrback()
      requires Valid() && stack != [] && stack[|stack| - 1].Adding?
      modifies this
      ensures Did(Resume)
    {
      ghost var before := Now();
      var top := stack[|stack| - 1];
      stack := stack[..|stack| - 1];
      AddHandler(top.cell, Guard(top.flow));
      Record(Resume, before);
    }

    method IsDraining(c: CellId) returns (r: bool)
      ensures r <==> HasDrain(stack, c)
    {
      r := exists i :: 0 <= i < |stack| && stack[i] == Drain(c);
    }

    /** The end of a flow: return_with is fired. */
    method Through(o: Outcome, ghost a: Action)
      requires Valid() && Enabled(Now(), a)
      requires stack != [] && stack[|stack| - 1].Segment?
      requires Step(Now(), a) == Finish(Now(), stack[|stack| - 1].flow, o)
      modifies this
      ensures Did(a)
    {
      ghost var before := Now();
      var f := stack[|stack| - 1].flow;
      stack := stack[..|stack| - 1];
      flows := flows[f := flows[f].(status := Done, fired := flows[f].fired + 1)];
      Settled(flows[f].ret, o);
      Record(a, before);
    }

    /** step, when next() gave anything else. */
    method StepYieldedPlain(v: int)
      requires Valid() && Enabled(Now(), YieldPlain(v))
      modifies this
      ensures Did(YieldPlain(v))
    {
      Through(Value(v), YieldPlain(v));
    }

    /** step, on StopIteration. */
    method StepStopped()
      requires Valid() && Enabled(Now(), Return)
      modifies this
      ensures Did(Return)
    {
      Through(Nothing, Return);
    }

    /** step, when the generator raised: out of the constructor if it was the
        first step, else out of callback or errback, into the deferred. */
    method StepRaised(e: int)
      requires Valid() && Enabled(Now(), Throw(e))
      modifies this
      ensures Did(Throw(e))
    {
      ghost var before := Now();
      var top := stack[|stack| - 1];
      stack := stack[..|stack| - 1];
      match top.origin {
        case Started =>
          flows := flows[top.flow := flows[top.flow].(status := Aborted)];
        case Resumed(c, _, _) =>
          flows := flows[top.flow := flows[top.flow].(status := Status.Raised)];
          cells := cells[c := cells[c].(result := Failure(e), raisedBy := Some(top.flow))];
      }
      Record(Throw(e), before);
    }

    /** A fired deferred calls its next handler: callback or errback, which
        store what they are given in the global and make a step, or
        unhandled_exception, which hands a failure to return_with. */
    method NextHandler()
      requires Valid() && stack != [] && stack[|stack| - 1].Drain?
      modifies this
      ensures Did(Resume)
    {
      hide Owned, Tracked, Queued, Counted, Drained, Slotted, Shaped, Nested, Standing;
      ghost var before := Now();
      var c := stack[|stack| - 1].cell;
      var cell := cells[c];
      if cell.queue == [] {
        stack := stack[..|stack| - 1];
        Record(Resume, before);
        return;
      }
      var rest := cell.(queue := cell.queue[1..]);
      match cell.queue[0] {
        case Enter(f) =>
          currentResult := Some(cell.result);
          cells := cells[c := rest.(result := Nothing, raisedBy := None, served := cell.served + 1)];
          flows := flows[f := flows[f].(status := Running)];
          stack := stack + [Segment(f, Resumed(c, cell.served, cell.result), true)];
        case Guard(f) =>
          if cell.result.Failure? {
            cells := cells[c := rest.(result := Nothing, raisedBy := None)];
            flows := flows[f := flows[f].(status := Done, fired := flows[f].fired + 1)];
            Settled(flows[f].ret, cell.result);
          } else {
            cells := cells[c := rest];
          }
      }
      Record(Resume, before);
    }
  }

  lemma RunGrows(worlds: seq<World>, acts: seq<Action>, before: World, a: Action)
    requires IsRun(worlds, acts) && worlds[|acts|] == before
    requires Sound(before) && Enabled(before, a)
    ensures IsRun(worlds + [Step(before, a)], acts + [a])
  {
    hide Step, Sound, Enabled;
    var ws, as_ := worlds + [Step(before, a)], acts + [a];
    forall i | 0 <= i < |as_|
      ensures Sound(ws[i]) && Enabled(ws[i], as_[i]) && ws[i + 1] == Step(ws[i], as_[i])
    {
      if i < |acts| {
        assert ws[i] == worlds[i] && ws[i + 1] == worlds[i + 1] && as_[i] == acts[i];
      }
    }
  }

  // ----------------------------------------------- an exception that goes astray

  const D := Cell(None, Nothing, [], None, 0, None)          // as it is made
  const A := Cell(Some(Value(7)), Value(7), [], None, 0, None) // fired
  const B := A.(result := Nothing, served := 1)              // after its first flow
  const C := A.(result := Nothing, served := 2)              // after its second
  const R0 := D.(owner := Some(0))                           // return_with of the first flow
  const R1 := D.(owner := Some(1))                           // and of the second
  const T1 := R1.(settled := Some(Nothing))
  const F0 := FlowState(Running, 1, 0)
  const F1 := FlowState(Running, 2, 0)
  const G0 := F0.(status := Status.Raised)
  const G1 := FlowState(Done, 2, 1)
  const S0 := Segment(0, Resumed(0, 0, Value(7)), true)

  /** The first flow yields a deferred that was fired before, and is resumed at
      once; it starts the second, which yields the same deferred; the first
      raises; the second is given that exception, and returns. */
  function Moment(i: nat): World {
    if i == 0 then Initial
    else if i == 1 then World(None, [], [D], [])
    else if i == 2 then World(None, [], [A], [Drain(0)])
    else if i == 3 then World(None, [], [A], [])
    else if i == 4 then World(None, [F0], [A, R0], [Segment(0, Started, true)])
    else if i == 5 then World(None, [F0.(status := Waiting(0))], [A.(queue := [Enter(0)]), R0], [Adding(0, 0), Drain(0)])
    else if i == 6 then World(Some(Value(7)), [F0], [B, R0], [Adding(0, 0), Drain(0), S0])
    else if i == 7 then World(None, [F0, F1], [B, R0, R1], [Adding(0, 0), Drain(0), S0.(clean := false), Segment(1, Started, true)])
    else if i == 8 then World(None, [F0, F1.(status := Waiting(0))], [B.(queue := [Enter(1)]), R0, R1],
            [Adding(0, 0), Drain(0), S0.(clean := false), Adding(1, 0)])
    else if i == 9 then World(None, [F0, F1.(status := Waiting(0))], [B.(queue := [Enter(1), Guard(1)]), R0, R1],
            [Adding(0, 0), Drain(0), S0.(clean := false)])
    else if i == 10 then World(None, [G0, F1.(status := Waiting(0))],
            [B.(queue := [Enter(1), Guard(1)], result := Failure(9), raisedBy := Some(0)), R0, R1], [Adding(0, 0), Drain(0)])
    else if i == 11 then World(Some(Failure(9)), [G0, F1], [C.(queue := [Guard(1)]), R0, R1],
            [Adding(0, 0), Drain(0), Segment(1, Resumed(0, 1, Failure(9)), true)])
    else if i == 12 then World(Some(Failure(9)), [G0, G1], [C.(queue := [Guard(1)]), R0, T1], [Adding(0, 0), Drain(0), Drain(2)])
    else if i == 13 then World(Some(Failure(9)), [G0, G1], [C.(queue := [Guard(1)]), R0, T1], [Adding(0, 0), Drain(0)])
    else if i == 14 then World(Some(Failure(9)), [G0, G1], [C, R0, T1], [Adding(0, 0), Drain(0)])
    else if i == 15 then World(Some(Failure(9)), [G0, G1], [C, R0, T1], [Adding(0, 0)])
    else if i == 16 then World(Some(Failure(9)), [G0, G1], [C.(queue := [Guard(0)]), R0, T1], [Drain(0)])
    else if i == 17 then World(Some(Failure(9)), [G0, G1], [C, R0, T1], [Drain(0)])
    else World(Some(Failure(9)), [G0, G1], [C, R0, T1], [])
  }

  function Act(i: nat): Action {
    if i == 0 then Make
    else if i == 1 then Fire(0, Value(7))
    else if i == 3 then Start
    else if i == 4 then Yield(0)
    else if i == 6 then Start
    else if i == 7 then Yield(0)
    else if i == 9 then Throw(9)
    else if i == 11 then Return
    else Resume
  }

  predicate Follows(i: nat)
    requires i < 18
  {
    Sound(Moment(i)) && Enabled(Moment(i), Act(i)) && Moment(i + 1) == Step(Moment(i), Act(i))
  }

  lemma YieldsAtRest()
    ensures Follows(4)
  {
    var w, w' := Moment(4), Moment(5);
    assert Pop(w.stack) + [Adding(0, 0)] == [Adding(0, 0)];
    NoDrain([Adding(0, 0)], 0);
    assert [Adding(0, 0)] + [Drain(0)] == w'.stack;
    assert w.flows[0 := w'.flows[0]] == w'.flows;
    assert w.cells[0].queue + [Enter(0)] == w'.cells[0].queue && w.cells[0 := w'.cells[0]] == w'.cells;
  }

  lemma YieldsInQueue()
    ensures Follows(7)
  {
    var w, w' := Moment(7), Moment(8);
    assert Pop(w.stack) + [Adding(1, 0)] == w'.stack && w'.stack[1] == Drain(0);
    assert HasDrain(w'.stack, 0);
    assert w.flows[1 := w'.flows[1]] == w'.flows;
    assert w.cells[0].queue + [Enter(1)] == w'.cells[0].queue && w.cells[0 := w'.cells[0]] == w'.cells;
  }

  lemma AddsInQueue()
    ensures Follows(8)
  {
    var w, w' := Moment(8), Moment(9);
    assert Pop(w.stack) == w'.stack && w'.stack[1] == Drain(0);
    assert HasDrain(w'.stack, 0);
    assert w.cells[0].queue + [Guard(1)] == w'.cells[0].queue && w.cells[0 := w'.cells[0]] == w'.cells;
  }

  lemma AddsAtRest()
    ensures Follows(15)
  {
    var w, w' := Moment(15), Moment(16);
    assert Pop(w.stack) == [];
    NoDrain([], 0);
    assert w.cells[0].queue + [Guard(0)] == w'.cells[0].queue && w.cells[0 := w'.cells[0]] == w'.cells;
  }

  lemma Handles(i: nat)
    requires i == 5 || i == 13 || i == 16
    ensures Follows(i)
  {
    TailTaken(i);
    assert Top(Moment(i)) == Drain(0);
  }

  lemma Opens(i: nat)
    requires i < 4
    ensures Follows(i)
  {
  }

  lemma StartsSecond()
    ensures Follows(6)
  {
    var w, w' := Moment(6), Moment(7);
    assert Dirty(w.stack) + [Segment(1, Started, true)] == w'.stack;
    assert w.flows + [F1] == w'.flows && w.cells + [R1] == w'.cells;
  }

  lemma Raises()
    ensures Follows(9)
  {
    var w, w' := Moment(9), Moment(10);
    assert Pop(w.stack) == w'.stack;
    assert w.flows[0 := w'.flows[0]] == w'.flows && w.cells[0 := w'.cells[0]] == w'.cells;
  }

  lemma HandsOn()
    ensures Follows(10)
  {
    var w, w' := Moment(10), Moment(11);
    assert w.cells[0].queue[1..] == w'.cells[0].queue;
    assert w.flows[1 := w'.flows[1]] == w'.flows && w.cells[0 := w'.cells[0]] == w'.cells;
  }

  lemma Returns()
    ensures Follows(11)
  {
    var w, w' := Moment(11), Moment(12);
    assert w.flows[1 := w'.flows[1]] == w'.flows && w.cells[2 := w'.cells[2]] == w'.cells;
    assert Pop(w.stack) == [Adding(0, 0), Drain(0)];
  }

  lemma Closes(i: nat)
    requires i == 12 || i == 14 || i == 17
    ensures Follows(i)
  {
    var w, w' := Moment(i), Moment(i + 1);
    assert Pop(w.stack) == w'.stack;
  }

  lemma EveryMoment(i: nat)
    requires i < 18
    ensures Follows(i)
  {
    hide Follows;
    if i == 4 {
      YieldsAtRest();
    } else if i == 7 {
      YieldsInQueue();
    } else if i == 8 {
      AddsInQueue();
    } else if i == 15 {
      AddsAtRest();
    } else if i == 5 || i == 13 || i == 16 {
      Handles(i);
    } else if i < 4 {
      Opens(i);
    } else if i == 6 {
      StartsSecond();
    } else if i == 9 {
      Raises();
    } else if i == 10 {
      HandsOn();
    } else if i == 11 {
      Returns();
    } else {
      Closes(i);
    }
  }

  lemma TailTaken(i: nat)
    requires i == 5 || i == 13 || i == 16
    ensures var w, w' := Moment(i), Moment(i + 1);
      && w.cells[0].queue[1..] == [] == w'.cells[0].queue && w.cells[0 := w'.cells[0]] == w'.cells
  {
  }

  lemma NoDrain(stack: seq<Frame>, c: CellId)
    requires forall i :: 0 <= i < |stack| ==> stack[i] != Drain(c)
    ensures !HasDrain(stack, c)
  {
  }

  /** So it can happen that every deferred a flow yielded was fired, nothing is
      running, and its return_with is never fired; its exception is in the
      slot of another flow. */
  lemma ExceptionGoesAstray() returns (worlds: seq<World>, acts: seq<Action>)
    ensures IsRun(worlds, acts) && |acts| == 18
    ensures worlds[11].stack != [] && Top(worlds[11]) == Segment(1, Resumed(0, 1, Failure(9)), true)
    ensures Slot(worlds[11]) == Some(Failure(9))
    ensures var w := worlds[|acts|];
      && w.stack == [] && w.flows == [FlowState(Status.Raised, 1, 0), FlowState(Done, 2, 1)]
      && |w.cells| == 3 && w.cells[0].settled == Some(Value(7)) && w.cells[1].settled == None
  {
    worlds, acts := seq(19, i requires 0 <= i => Moment(i)), seq(18, i requires 0 <= i => Act(i));
    forall i | 0 <= i < |acts|
      ensures Sound(worlds[i]) && Enabled(worlds[i], acts[i]) && worlds[i + 1] == Step(worlds[i], acts[i])
    {
      EveryMoment(i);
    }
  }
}
