/**
SliceVector::dump with line splitting (yate/yatemath.h): the elements of a
vector as text, wrapped greedily into lines.
*/
module LineWrap {
  import opened Sequences

  type Token = string
  type Line = seq<Token>

  function Concat(ts: seq<string>): string {
    if ts == [] then "" else ts[0] + Concat(ts[1..])
  }

  function Flatten(lines: seq<Line>): Line {
    if lines == [] then [] else lines[0] + Flatten(lines[1..])
  }

  /** The elements as they are printed in lines: each but the last carries the separator. */
  function Tokens(elems: seq<string>, sep: string): (ts: seq<Token>)
    ensures |ts| == |elems|
  {
    if elems == [] then []
    else if |elems| == 1 then [elems[0]]
    else [elems[0] + sep] + Tokens(elems[1..], sep)
  }

  function Joined(elems: seq<string>, sep: string): string {
    if elems == [] then ""
    else if |elems| == 1 then elems[0]
    else elems[0] + sep + Joined(elems[1..], sep)
  }

  /** Joining puts the separator between the texts, and nowhere else. */
  lemma {:induction false} JoinedInTwo(a: seq<string>, b: seq<string>, sep: string)
    requires a != [] && b != []
    ensures Joined(a + b, sep) == Joined(a, sep) + sep + Joined(b, sep)
    ensures |a| == 1 ==> Joined(a, sep) == a[0]
  {
    var all := a + b;
    assert all[1..] == a[1..] + b;
    if |a| > 1 {
      JoinedInTwo(a[1..], b, sep);
      var x, y, z := Joined(a[1..], sep), Joined(b, sep), a[0] + sep;
      assert z + (x + sep + y) == z + x + sep + y;
    } else {
      assert all[1..] == b;
    }
  }

  /** And putting texts in a row puts nothing between them. */
  lemma {:induction false} ConcatInTwo(a: seq<string>, b: seq<string>)
    ensures Concat(a + b) == Concat(a) + Concat(b)
    ensures |a| == 1 ==> Concat(a) == a[0]
  {
    if a == [] {
      assert a + b == b;
    } else {
      ConcatInTwo(a[1..], b);
      assert (a + b)[1..] == a[1..] + b;
      Assoc(a[0], Concat(a[1..]), Concat(b));
      Unit(a[0]);
    }
  }

  lemma {:induction false} TokensAreJoined(elems: seq<string>, sep: string)
    ensures Concat(Tokens(elems, sep)) == Joined(elems, sep)
  {
    if |elems| == 1 {
      assert Tokens(elems, sep)[1..] == [];
    } else if elems != [] {
      TokensAreJoined(elems[1..], sep);
      assert Tokens(elems, sep)[1..] == Tokens(elems[1..], sep);
    }
  }

  /** The total length of some tokens. */
  function Width(ts: seq<Token>): nat {
    if ts == [] then 0 else |ts[0]| + Width(ts[1..])
  }

  /** That is the length of their text. */
  lemma {:induction false} WidthIsLength(ts: seq<Token>)
    ensures Width(ts) == |Concat(ts)|
  {
    if ts != [] {
      WidthIsLength(ts[1..]);
    }
  }

  // ----------------------------------------------------------- the greedy wrap

  /** The lines the loop makes of the tokens that are left, the first of them
      continuing a line that is filled up to `offset`. */
  function Wrap(ts: seq<Token>, offset: nat, lineLen: nat): (lines: seq<Line>)
    ensures lines != []
  {
    if ts == [] then [[]]
    else
      var t := ts[0];
      if offset + |t| > lineLen then
        var rest := Wrap(ts[1..], |t|, lineLen);
        [[]] + ([[t] + rest[0]] + rest[1..])
      else
        var rest := Wrap(ts[1..], offset + |t|, lineLen);
        [[t] + rest[0]] + rest[1..]
  }

  /** The text of the lines: the prefix stands before every line but the first. */
  function Render(lines: seq<Line>, prefix: string): string
    requires lines != []
  {
    if |lines| == 1 then Concat(lines[0]) else Concat(lines[0]) + prefix + Render(lines[1..], prefix)
  }

  /** The text of some lines and that of the lines behind them have one prefix between them. */
  lemma {:induction false} RenderInTwo(a: seq<Line>, b: seq<Line>, prefix: string)
    requires a != [] && b != []
    ensures Render(a + b, prefix) == Render(a, prefix) + prefix + Render(b, prefix)
    ensures |a| == 1 ==> Render(a, prefix) == Concat(a[0])
  {
    assert (a + b)[1..] == a[1..] + b;
    if |a| > 1 {
      RenderInTwo(a[1..], b, prefix);
      var x, y, z := Render(a[1..], prefix), Render(b, prefix), Concat(a[0]) + prefix;
      assert z + (x + prefix + y) == z + x + prefix + y;
    } else {
      assert (a + b)[1..] == b;
    }
  }

  function Breaks(ts: seq<Token>, offset: nat, lineLen: nat): nat {
    if ts == [] then 0
    else if offset + |ts[0]| > lineLen then 1 + Breaks(ts[1..], |ts[0]|, lineLen)
    else Breaks(ts[1..], offset + |ts[0]|, lineLen)
  }

  lemma {:induction false} BreaksCountsLines(ts: seq<Token>, offset: nat, lineLen: nat)
    ensures |Wrap(ts, offset, lineLen)| == Breaks(ts, offset, lineLen) + 1
  {
    if ts != [] {
      var t := ts[0];
      BreaksCountsLines(ts[1..], if offset + |t| > lineLen then |t| else offset + |t|, lineLen);
    }
  }

  lemma FlattenFirst(l: Line, lines: seq<Line>)
    ensures Flatten([l] + lines) == l + Flatten(lines)
  {
    assert ([l] + lines)[1..] == lines;
  }

  /** Nothing is lost, added or moved: without the prefixes, the lines are the tokens. */
  lemma {:induction false} WrapKeepsTokens(ts: seq<Token>, offset: nat, lineLen: nat)
    ensures Flatten(Wrap(ts, offset, lineLen)) == ts
  {
    if ts == [] {
      FlattenFirst([], []);
      Unit<Line>([[]]);
      return;
    }
    var t := ts[0];
    var next := if offset + |t| > lineLen then |t| else offset + |t|;
    var rest := Wrap(ts[1..], next, lineLen);
    WrapKeepsTokens(ts[1..], next, lineLen);
    HeadTail(rest);
    HeadTail(ts);
    FlattenFirst(rest[0], rest[1..]);
    FlattenFirst([t] + rest[0], rest[1..]);
    FlattenFirst([], [[t] + rest[0]] + rest[1..]);
    hide Flatten;
    Assoc([t], rest[0], Flatten(rest[1..]));
    Unit(ts);
  }

  /** A line that keeps the limit, or holds a single token that is too long by itself. */
  predicate LineOk(l: Line, lineLen: nat) {
    Width(l) <= lineLen || |l| == 1
  }

  /** What can be said of the line that is continued at `offset`. */
  predicate FirstOk(l: Line, offset: nat, lineLen: nat) {
    l == [] || offset + Width(l) <= lineLen
  }

  predicate LinesOk(lines: seq<Line>, lineLen: nat) {
    forall i :: 0 <= i < |lines| ==> LineOk(lines[i], lineLen)
  }

  /** Every line keeps the limit, the first one counting what it continues,
      unless it holds a single over-long token. */
  lemma {:induction false} WrapKeepsLimit(ts: seq<Token>, offset: nat, lineLen: nat)
    ensures var lines := Wrap(ts, offset, lineLen);
      FirstOk(lines[0], offset, lineLen) && LinesOk(lines[1..], lineLen)
  {
    if ts == [] {
      return;
    }
    var t := ts[0];
    var next := if offset + |t| > lineLen then |t| else offset + |t|;
    var rest := Wrap(ts[1..], next, lineLen);
    WrapKeepsLimit(ts[1..], next, lineLen);
    var first := [t] + rest[0];
    assert first[1..] == rest[0];
    assert Width(first) == |t| + Width(rest[0]);
    var lines := Wrap(ts, offset, lineLen);
    if offset + |t| > lineLen {
      assert rest[0] == [] ==> |first| == 1;
      assert LineOk(first, lineLen);
      assert lines[1..] == [first] + rest[1..];
    } else {
      assert rest[0] == [] ==> Width(first) == |t|;
      assert lines[1..] == rest[1..];
    }
  }

  // ------------------------------------------------------------------ minimality

  /** An order-preserving split of the tokens into lines within the limit; a
      first line that takes nothing is always allowed. */
  predicate Fits(lines: seq<Line>, ts: seq<Token>, offset: nat, lineLen: nat) {
    && lines != [] && Flatten(lines) == ts
    && FirstOk(lines[0], offset, lineLen)
    && forall i :: 1 <= i < |lines| ==> Width(lines[i]) <= lineLen
  }

  predicate AllFit(ts: seq<Token>, lineLen: nat) {
    forall i :: 0 <= i < |ts| ==> |ts[i]| <= lineLen
  }

  /** Starting further left costs no break, starting further right at most one. */
  lemma {:induction false} BreaksMonotone(ts: seq<Token>, a: nat, b: nat, lineLen: nat)
    requires a <= b
    ensures Breaks(ts, a, lineLen) <= Breaks(ts, b, lineLen) <= 1 + Breaks(ts, a, lineLen)
  {
    if ts == [] {
      return;
    }
    var n := |ts[0]|;
    if b + n <= lineLen {
      BreaksMonotone(ts[1..], a + n, b + n, lineLen);
    } else if a + n <= lineLen {
      BreaksMonotone(ts[1..], n, a + n, lineLen);
    }
  }

  /** No split within the limit has fewer breaks than the greedy one. */
  lemma {:induction false} GreedyIsMinimal(lines: seq<Line>, ts: seq<Token>, offset: nat, lineLen: nat)
    requires Fits(lines, ts, offset, lineLen)
    ensures Breaks(ts, offset, lineLen) <= |lines| - 1
    decreases |lines|, |ts|
  {
    HeadTail(lines);
    if lines[0] == [] {
      if |lines| == 1 {
        FlattenFirst([], []);
        assert [lines[0]] + [] == lines;
      } else {
        var rest := lines[1..];
        assert Flatten(lines) == [] + Flatten(rest);
        assert FirstOk(rest[0], 0, lineLen) by { assert rest[0] == lines[1]; }
        GreedyIsMinimal(rest, ts, 0, lineLen);
        BreaksMonotone(ts, 0, offset, lineLen);
      }
    } else {
      var t, l := lines[0][0], lines[0][1..];
      var rest := [l] + lines[1..];
      HeadTail(lines[0]);
      FlattenFirst(l, lines[1..]);
      Assoc([t], l, Flatten(lines[1..]));
      assert ts == [t] + Flatten(rest);
      assert ts[0] == t && ts[1..] == Flatten(rest);
      assert Width(lines[0]) == |t| + Width(l);
      GreedyIsMinimal(rest, ts[1..], offset + |t|, lineLen);
    }
  }

  lemma {:induction false} FlattenHolds(lines: seq<Line>, i: nat, j: nat)
    requires i < |lines| && j < |lines[i]|
    ensures lines[i][j] in Flatten(lines)
  {
    HeadTail(lines);
    FlattenFirst(lines[0], lines[1..]);
    if i > 0 {
      FlattenHolds(lines[1..], i - 1, j);
    }
  }

  lemma {:induction false} TokenWithinWidth(l: Line, j: nat)
    requires j < |l|
    ensures |l[j]| <= Width(l)
  {
    if j > 0 {
      TokenWithinWidth(l[1..], j - 1);
    }
  }

  /** When every token fits on a line, the greedy wrap is within the limit and
      has the fewest breaks of all splits within the limit. */
  lemma GreedyIsOptimal(ts: seq<Token>, offset: nat, lineLen: nat)
    requires AllFit(ts, lineLen)
    ensures var best := Wrap(ts, offset, lineLen);
      && Fits(best, ts, offset, lineLen)
      && forall lines: seq<Line> :: Fits(lines, ts, offset, lineLen) ==> |best| <= |lines|
  {
    var best := Wrap(ts, offset, lineLen);
    WrapKeepsTokens(ts, offset, lineLen);
    WrapKeepsLimit(ts, offset, lineLen);
    forall i | 1 <= i < |best|
      ensures Width(best[i]) <= lineLen
    {
      assert LineOk(best[1..][i - 1], lineLen);
      if |best[i]| == 1 {
        FlattenHolds(best, i, 0);
        assert Width(best[i][1..]) == 0;
      }
    }
    BreaksCountsLines(ts, offset, lineLen);
    forall lines: seq<Line> | Fits(lines, ts, offset, lineLen)
      ensures |best| <= |lines|
    {
      GreedyIsMinimal(lines, ts, offset, lineLen);
    }
  }

  /** There is a split within the limit exactly when every token fits on a line. */
  lemma SplitExistsExactly(ts: seq<Token>, offset: nat, lineLen: nat)
    ensures (exists lines: seq<Line> :: Fits(lines, ts, offset, lineLen)) <==> AllFit(ts, lineLen)
  {
    if AllFit(ts, lineLen) {
      GreedyIsOptimal(ts, offset, lineLen);
    }
    forall lines: seq<Line> | Fits(lines, ts, offset, lineLen)
      ensures AllFit(ts, lineLen)
    {
      forall k | 0 <= k < |ts|
        ensures |ts[k]| <= lineLen
      {
        var i, j := WhereIs(lines, k);
        TokenWithinWidth(lines[i], j);
      }
    }
  }

  lemma {:induction false} WhereIs(lines: seq<Line>, k: nat) returns (i: nat, j: nat)
    requires k < |Flatten(lines)|
    ensures i < |lines| && j < |lines[i]| && lines[i][j] == Flatten(lines)[k]
  {
    if k < |lines[0]| {
      return 0, k;
    }
    i, j := WhereIs(lines[1..], k - |lines[0]|);
    i := i + 1;
  }

  // --------------------------------------------------------- the unwrapped dump

  /** String::append with a separator: nothing precedes what comes first. */
  function Appended(s: string, value: string, sep: string): string {
    if s == "" then value else s + sep + value
  }

  function PlainFrom(s: string, elems: seq<string>, sep: string): string
    decreases |elems|
  {
    if elems == [] then s else PlainFrom(Appended(s, elems[0], sep), elems[1..], sep)
  }

  /** SliceVector::dump without a line length. */
  method DumpPlain(elems: seq<string>, sep: string) returns (localBuf: string)
    ensures localBuf == PlainFrom("", elems, sep)
  {
    localBuf := "";
    var i := 0;
    while i < |elems|
      invariant i <= |elems| && PlainFrom(localBuf, elems[i..], sep) == PlainFrom("", elems, sep)
    {
      assert elems[i..][1..] == elems[i + 1..];
      localBuf := Appended(localBuf, elems[i], sep);
      i := i + 1;
    }
  }

  lemma {:induction false} PlainAfterText(s: string, elems: seq<string>, sep: string)
    requires s != ""
    ensures PlainFrom(s, elems, sep) == if elems == [] then s else s + sep + Joined(elems, sep)
    decreases |elems|
  {
    if elems != [] {
      var s' := s + sep + elems[0];
      assert |s'| >= |s|;
      PlainAfterText(s', elems[1..], sep);
      if |elems| > 1 {
        var j := Joined(elems[1..], sep);
        assert s' + sep + j == s + sep + (elems[0] + sep + j);
      }
    }
  }

  lemma {:induction false} PlainIsNoLonger(elems: seq<string>, sep: string)
    ensures |PlainFrom("", elems, sep)| <= |Joined(elems, sep)|
  {
    if elems == [] {
      return;
    }
    if elems[0] == "" {
      PlainIsNoLonger(elems[1..], sep);
    } else {
      PlainAfterText(elems[0], elems[1..], sep);
    }
  }

  /** The unwrapped dump is the separator-joined text exactly when there is
      nothing to separate, or the separator is empty, or the first element
      is not: separators before the first visible character are dropped. */
  lemma PlainIsJoinedExactly(elems: seq<string>, sep: string)
    ensures PlainFrom("", elems, sep) == Joined(elems, sep) <==> |elems| <= 1 || sep == "" || elems[0] != ""
  {
    if elems == [] {
    } else if elems[0] != "" {
      PlainAfterText(elems[0], elems[1..], sep);
    } else if |elems| > 1 {
      PlainIsNoLonger(elems[1..], sep);
      if sep == "" {
        NoSeparator("", elems);
      }
    }
  }

  /** How many elements are empty before the first that is not. */
  function Blanks(elems: seq<string>): (k: nat)
    ensures k <= |elems|
    ensures forall j :: 0 <= j < k ==> elems[j] == ""
    ensures k < |elems| ==> elems[k] != ""
  {
    if elems == [] || elems[0] != "" then 0 else Blanks(elems[1..]) + 1
  }

  /** The unwrapped dump is the joined text of what follows the empty elements in front. */
  lemma {:induction false} PlainSkipsBlanks(elems: seq<string>, sep: string)
    ensures PlainFrom("", elems, sep) == Joined(elems[Blanks(elems)..], sep)
  {
    if elems != [] {
      if elems[0] == "" {
        PlainSkipsBlanks(elems[1..], sep);
        assert elems[1..][Blanks(elems[1..])..] == elems[Blanks(elems)..];
      } else {
        PlainAfterText(elems[0], elems[1..], sep);
      }
    }
  }

  lemma {:induction false} NoSeparator(s: string, elems: seq<string>)
    ensures PlainFrom(s, elems, "") == s + Joined(elems, "")
    decreases |elems|
  {
    if elems == [] {
      Unit(s);
    } else {
      var e := elems[0];
      assert Appended(s, e, "") == s + e;
      NoSeparator(s + e, elems[1..]);
      if |elems| > 1 {
        assert e + "" + Joined(elems[1..], "") == e + Joined(elems[1..], "");
        Assoc(s, e, Joined(elems[1..], ""));
      } else {
        Unit(s + e);
      }
    }
  }

  // ------------------------------------------------------------- the method

  /** The range of unsigned int. */
  const U32 := 0x1_0000_0000

  /** Unsigned addition. */
  function Add32(a: nat, b: nat): nat {
    (a + b) % U32
  }

  /** String::length. */
  function Length32(s: string): nat {
    |s| % U32
  }

  /** The lines the loop makes when it counts in unsigned numbers. */
  function Wrap32(ts: seq<Token>, offset: nat, lineLen: nat): (lines: seq<Line>)
    ensures lines != []
  {
    if ts == [] then [[]]
    else
      var t := ts[0];
      var filled := Add32(offset, Length32(t));
      if filled > lineLen then
        var rest := Wrap32(ts[1..], Length32(t), lineLen);
        [[]] + ([[t] + rest[0]] + rest[1..])
      else
        var rest := Wrap32(ts[1..], filled, lineLen);
        [[t] + rest[0]] + rest[1..]
  }

  /** The arguments are unsigned, and so are the lengths of the elements. */
  predicate Unsigned(ts: seq<Token>, offset: nat, lineLen: nat) {
    offset < U32 && lineLen < U32 && forall i :: 0 <= i < |ts| ==> |ts[i]| < U32
  }

  /** At some step the count comes around to a number that does not pass the limit. */
  predicate Around(ts: seq<Token>, offset: nat, lineLen: nat) {
    && ts != []
    && var n := offset + |ts[0]|;
       || U32 <= n <= U32 + lineLen
       || Around(ts[1..], if n > lineLen then |ts[0]| else n, lineLen)
  }

  /** The lines keep the limit, the first one counting its offset. */
  predicate WithinLimit(lines: seq<Line>, offset: nat, lineLen: nat)
    requires lines != []
  {
    FirstOk(lines[0], offset, lineLen) && LinesOk(lines[1..], lineLen)
  }

  /** One step of counting, of a count that does not come around. */
  lemma StepIsExact(t: Token, offset: nat, lineLen: nat)
    requires offset < U32 && lineLen < U32 && |t| < U32
    ensures var n := offset + |t|;
      && Length32(t) == |t|
      && (Add32(offset, |t|) > lineLen <==> n > lineLen && !(U32 <= n <= U32 + lineLen))
      && (n < U32 ==> Add32(offset, |t|) == n)
  {
  }

  lemma {:induction false} SameLines(ts: seq<Token>, offset: nat, lineLen: nat)
    requires Unsigned(ts, offset, lineLen) && !Around(ts, offset, lineLen)
    ensures Wrap32(ts, offset, lineLen) == Wrap(ts, offset, lineLen)
  {
    if ts != [] {
      hide Add32, Length32;
      var n := offset + |ts[0]|;
      StepIsExact(ts[0], offset, lineLen);
      assert forall i :: 0 <= i < |ts| - 1 ==> ts[1..][i] == ts[i + 1];
      SameLines(ts[1..], if n > lineLen then |ts[0]| else n, lineLen);
    }
  }

  /** A line that goes on with a token. */
  lemma LongerLine(t: Token, l: Line, offset: nat, lineLen: nat)
    ensures Width([t] + l) == |t| + Width(l)
    ensures FirstOk([t] + l, offset, lineLen) <==> offset + |t| + Width(l) <= lineLen
    ensures !FirstOk(l, |t|, lineLen) ==> !LineOk([t] + l, lineLen)
  {
    assert ([t] + l)[1..] == l;
  }

  /** When the count comes around, some line passes the limit. */
  lemma {:induction false} AroundOverruns(ts: seq<Token>, offset: nat, lineLen: nat)
    requires Unsigned(ts, offset, lineLen) && Around(ts, offset, lineLen)
    ensures !WithinLimit(Wrap32(ts, offset, lineLen), offset, lineLen)
  {
    hide Add32, Length32, FirstOk, LineOk, Width;
    var t, n := ts[0], offset + |ts[0]|;
    StepIsExact(t, offset, lineLen);
    var rest := Wrap32(ts[1..], if n > lineLen && !(U32 <= n <= U32 + lineLen) then |t| else Add32(offset, |t|), lineLen);
    LongerLine(t, rest[0], offset, lineLen);
    if !(U32 <= n <= U32 + lineLen) {
      assert forall i :: 0 <= i < |ts| - 1 ==> ts[1..][i] == ts[i + 1];
      AroundOverruns(ts[1..], if n > lineLen then |t| else n, lineLen);
      if n > lineLen {
        OverrunAfterBreak([t] + rest[0], rest[1..], lineLen);
      } else {
        GoesOn(t, rest[0], offset, lineLen);
      }
    }
  }

  lemma OverrunAfterBreak(l: Line, more: seq<Line>, lineLen: nat)
    ensures LinesOk(([[]] + ([l] + more))[1..], lineLen) <==> LineOk(l, lineLen) && LinesOk(more, lineLen)
  {
    hide LineOk;
    var lines := [l] + more;
    assert ([[]] + lines)[1..] == lines;
    assert forall i :: 0 <= i < |more| ==> more[i] == lines[i + 1];
    if LinesOk(lines, lineLen) {
      assert LineOk(lines[0], lineLen);
      forall i | 0 <= i < |more|
        ensures LineOk(more[i], lineLen)
      {
        assert LineOk(lines[i + 1], lineLen);
      }
    }
  }

  lemma GoesOn(t: Token, l: Line, offset: nat, lineLen: nat)
    ensures !FirstOk(l, offset + |t|, lineLen) ==> !FirstOk([t] + l, offset, lineLen)
  {
    LongerLine(t, l, offset, lineLen);
  }

  /** The 32-bit count makes the right lines, and lines that keep the limit,
      exactly when it never comes around to a number within the limit. */
  lemma CountingIsExact(ts: seq<Token>, offset: nat, lineLen: nat)
    requires Unsigned(ts, offset, lineLen)
    ensures WithinLimit(Wrap32(ts, offset, lineLen), offset, lineLen) <==> !Around(ts, offset, lineLen)
    ensures Wrap32(ts, offset, lineLen) == Wrap(ts, offset, lineLen) <==> !Around(ts, offset, lineLen)
  {
    hide Around, FirstOk, LinesOk;
    WrapKeepsLimit(ts, offset, lineLen);
    if Around(ts, offset, lineLen) {
      AroundOverruns(ts, offset, lineLen);
    } else {
      SameLines(ts, offset, lineLen);
    }
  }

  /** It never does when no line, offset or element is half as long as the range. */
  lemma {:induction false} ShortNeverAround(ts: seq<Token>, offset: nat, lineLen: nat)
    requires offset < U32 / 2 && lineLen < U32 / 2 && forall i :: 0 <= i < |ts| ==> |ts[i]| < U32 / 2
    ensures !Around(ts, offset, lineLen)
  {
    if ts != [] {
      var n := offset + |ts[0]|;
      assert forall i :: 0 <= i < |ts| - 1 ==> ts[1..][i] == ts[i + 1];
      ShortNeverAround(ts[1..], if n > lineLen then |ts[0]| else n, lineLen);
    }
  }

  /** A call in which it does: with an offset close to the range nothing
      should go on the first line, but a short element does. */
  lemma CountingCanOverrun(t: Token)
    requires |t| == 5
    ensures var offset := U32 - 3;
      && Unsigned([t], offset, 10) && Around([t], offset, 10)
      && Wrap32([t], offset, 10) == [[t]] && Wrap([t], offset, 10) == [[], [t]]
      && !WithinLimit([[t]], offset, 10)
  {
    var offset := U32 - 3;
    assert [t][1..] == [] && Add32(offset, Length32(t)) == 2;
    assert Wrap32([], 2, 10) == [[]] && Wrap([], 5, 10) == [[]];
    assert [t] + [] == [t] && [[]] + [[t]] == [[], [t]];
    CountingIsExact([t], offset, 10);
  }

  /** What dump writes between a buffer and the suffix; an absent prefix is
      replaced by the suffix. */
  function Dumped(elems: seq<string>, func: bool, lineLen: nat, offset: nat,
                  linePrefix: string, suffix: string, sep: string): string
  {
    var prefix := if linePrefix == "" then suffix else linePrefix;
    if elems == [] || !func then ""
    else if lineLen == 0 || prefix == "" then PlainFrom("", elems, sep)
    else Render(Wrap32(Tokens(elems, sep), offset, lineLen), prefix)
  }

  /** The calls that split no lines: nothing to dump, or nothing to split it
      by. Then the text is the elements joined by the separator, from the first
      that is not empty on. */
  lemma DumpedOnOneLine(elems: seq<string>, func: bool, lineLen: nat, offset: nat,
                        linePrefix: string, suffix: string, sep: string)
    requires elems == [] || !func || lineLen == 0 || (linePrefix == "" && suffix == "")
    ensures var text := Dumped(elems, func, lineLen, offset, linePrefix, suffix, sep);
      && (elems == [] || !func ==> text == "")
      && (elems != [] && func ==> text == Joined(elems[Blanks(elems)..], sep))
  {
    PlainSkipsBlanks(elems, sep);
  }

  /** One round of the loop: the token goes on this line or on a new one. */
  lemma RenderStep(ts: seq<Token>, offset: nat, lineLen: nat, prefix: string)
    requires ts != []
    ensures var t := ts[0];
      var filled := Add32(offset, Length32(t));
      Render(Wrap32(ts, offset, lineLen), prefix) ==
        if filled > lineLen then prefix + (t + Render(Wrap32(ts[1..], Length32(t), lineLen), prefix))
        else t + Render(Wrap32(ts[1..], filled, lineLen), prefix)
  {
    hide Add32, Length32;
    var t := ts[0];
    var filled := Add32(offset, Length32(t));
    var rest := Wrap32(ts[1..], if filled > lineLen then Length32(t) else filled, lineLen);
    RenderFirst(t, rest, prefix);
    var lines := [[t] + rest[0]] + rest[1..];
    if filled > lineLen {
      assert ([[]] + lines)[1..] == lines;
      assert Concat([]) + prefix + Render(lines, prefix) == prefix + Render(lines, prefix);
    }
  }

  lemma RenderFirst(t: Token, rest: seq<Line>, prefix: string)
    requires rest != []
    ensures Render([[t] + rest[0]] + rest[1..], prefix) == t + Render(rest, prefix)
  {
    var lines := [[t] + rest[0]] + rest[1..];
    assert ([t] + rest[0])[1..] == rest[0];
    assert lines[1..] == rest[1..];
    if |rest| > 1 {
      assert t + Concat(rest[0]) + prefix + Render(rest[1..], prefix)
          == t + (Concat(rest[0]) + prefix + Render(rest[1..], prefix));
    }
  }

  /** A text that grows, and what the tokens that are left will add to it. */
  function Ahead(localBuf: string, left: seq<Token>, offset: nat, lineLen: nat, prefix: string): string {
    localBuf + Render(Wrap32(left, offset, lineLen), prefix)
  }

  lemma DumpStep(localBuf: string, left: seq<Token>, offset: nat, lineLen: nat, prefix: string)
    requires left != []
    ensures var t := left[0];
      var filled := Add32(offset, Length32(t));
      Ahead(localBuf, left, offset, lineLen, prefix) ==
        if filled > lineLen then Ahead(localBuf + prefix + t, left[1..], Length32(t), lineLen, prefix)
        else Ahead(localBuf + t, left[1..], filled, lineLen, prefix)
  {
    hide Wrap32, Render, Add32, Length32;
    RenderStep(left, offset, lineLen, prefix);
    var t, rest := left[0], left[1..];
    var filled := Add32(offset, Length32(t));
    if filled > lineLen {
      Glue(localBuf, prefix, t, Render(Wrap32(rest, Length32(t), lineLen), prefix));
    } else {
      Assoc(localBuf, t, Render(Wrap32(rest, filled, lineLen), prefix));
    }
  }

  lemma Glue(a: string, b: string, c: string, d: string)
    ensures a + (b + (c + d)) == a + b + c + d
  {
    Assoc(a, b, c + d);
    Assoc(a + b, c, d);
  }

  lemma DumpEnds(localBuf: string, elems: seq<string>, sep: string, offset: nat, lineLen: nat, prefix: string)
    ensures var ts := Tokens(elems, sep);
      && ts[0..] == ts && ts[|elems|..] == []
      && Ahead("", ts, offset, lineLen, prefix) == Render(Wrap32(ts, offset, lineLen), prefix)
    ensures Ahead(localBuf, [], offset, lineLen, prefix) == localBuf
  {
  }

  /** SliceVector::dump with a line length. */
  method Dump(buf: string, elems: seq<string>, func: bool, lineLen: nat, offset: nat,
              linePrefix: string, suffix: string, sep: string) returns (r: string)
    ensures r == buf + Dumped(elems, func, lineLen, offset, linePrefix, suffix, sep) + suffix
  {
    hide PlainFrom, Wrap32, Render, Tokens;
    if elems == [] || !func {
      Unit(buf);
      return buf + suffix;
    }
    var prefix := linePrefix;
    if prefix == "" {
      prefix := suffix;
    }
    if lineLen == 0 || prefix == "" {
      var plain := DumpPlain(elems, sep);
      return buf + plain + suffix;
    }
    var localBuf := DumpWrapped(elems, lineLen, offset, prefix, sep);
    return buf + localBuf + suffix;
  }

  /** The loop of the line-splitting dump. */
  method DumpWrapped(elems: seq<string>, lineLen: nat, offset: nat, prefix: string, sep: string)
    returns (localBuf: string)
    ensures localBuf == Render(Wrap32(Tokens(elems, sep), offset, lineLen), prefix)
  {
    ghost var ts := Tokens(elems, sep);
    DumpEnds("", elems, sep, offset, lineLen, prefix);
    hide Ahead, Wrap32, Render, Tokens, Add32, Length32;
    var filled: nat := offset;
    localBuf := "";
    var d := 0;
    while d < |elems|
      invariant d <= |elems|
      invariant Ahead(localBuf, ts[d..], filled, lineLen, prefix) == Ahead("", ts, offset, lineLen, prefix)
    {
      TokenAt(elems, sep, d);
      SuffixHead(ts, d);
      DumpStep(localBuf, ts[d..], filled, lineLen, prefix);
      var tmp := elems[d];
      d := d + 1;
      if d != |elems| {
        tmp := tmp + sep;
      }
      filled := Add32(filled, Length32(tmp));
      if filled > lineLen {
        localBuf := localBuf + prefix;
        filled := Length32(tmp);
      }
      localBuf := localBuf + tmp;
    }
    DumpEnds(localBuf, elems, sep, filled, lineLen, prefix);
  }

  lemma {:induction false} TokenAt(elems: seq<string>, sep: string, d: nat)
    requires d < |elems|
    ensures Tokens(elems, sep)[d] == if d + 1 == |elems| then elems[d] else elems[d] + sep
  {
    if d > 0 {
      TokenAt(elems[1..], sep, d - 1);
    }
  }

  /** The line-splitting dump, told without the loop, for every call that
      splits lines; where no prefix is given, the suffix stands for it. The
      lines read as the joined elements once the prefixes are taken out. They
      keep the limit exactly when the count never comes around; then, when
      every token fits, no split within the limit has fewer lines. */
  lemma DumpedLines(elems: seq<string>, lineLen: nat, offset: nat, linePrefix: string, suffix: string, sep: string)
    requires elems != [] && lineLen > 0 && (linePrefix != "" || suffix != "")
    requires Unsigned(Tokens(elems, sep), offset, lineLen)
    ensures var ts := Tokens(elems, sep);
      var lines := Wrap32(ts, offset, lineLen);
      && Dumped(elems, true, lineLen, offset, linePrefix, suffix, sep)
           == Render(lines, if linePrefix == "" then suffix else linePrefix)
      && Concat(Flatten(lines)) == Joined(elems, sep)
      && (WithinLimit(lines, offset, lineLen) <==> !Around(ts, offset, lineLen))
      && (AllFit(ts, lineLen) && !Around(ts, offset, lineLen) ==>
            forall other: seq<Line> :: Fits(other, ts, offset, lineLen) ==> |lines| <= |other|)
  {
    var ts := Tokens(elems, sep);
    CountingIsExact(ts, offset, lineLen);
    CountingKeepsTokens(ts, offset, lineLen);
    TokensAreJoined(elems, sep);
    if AllFit(ts, lineLen) {
      GreedyIsOptimal(ts, offset, lineLen);
    }
  }

  /** However the counting goes, no element is lost, added or moved. */
  lemma {:induction false} CountingKeepsTokens(ts: seq<Token>, offset: nat, lineLen: nat)
    ensures Flatten(Wrap32(ts, offset, lineLen)) == ts
  {
    if ts == [] {
      FlattenFirst([], []);
      Unit<Line>([[]]);
      return;
    }
    var t := ts[0];
    var filled := Add32(offset, Length32(t));
    var next := if filled > lineLen then Length32(t) else filled;
    var rest := Wrap32(ts[1..], next, lineLen);
    CountingKeepsTokens(ts[1..], next, lineLen);
    HeadTail(rest);
    HeadTail(ts);
    FlattenFirst(rest[0], rest[1..]);
    FlattenFirst([t] + rest[0], rest[1..]);
    FlattenFirst([], [[t] + rest[0]] + rest[1..]);
    hide Flatten;
    Assoc([t], rest[0], Flatten(rest[1..]));
    Unit(ts);
  }
}
