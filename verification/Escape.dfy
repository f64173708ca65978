/**
The ExtModule protocol escaper and unescaper (checker/helpline/message.py).

A Python string is a sequence of code points; `chr` raises ValueError outside
0..0x10FFFF, so the range is part of the model.
*/
module Escape {
  import opened Wrappers

  const MAX_CODE := 0x110000

  type Code = c: int | 0 <= c < MAX_CODE
  type Text = seq<Code>

  const PERCENT: Code := '%' as int
  const COLON: Code := ':' as int
  const EQUALS: Code := '=' as int

  /** How far an escaped character is moved. */
  const SHIFT := 64

  /** An ASCII literal as code points. */
  function Ascii(s: string): (t: Text)
    ensures |t| == |s|
    ensures forall i :: 0 <= i < |s| ==> t[i] == s[i] as int
  {
    seq(|s|, i requires 0 <= i < |s| => s[i] as int)
  }

  // ---------------------------------------------------------------- escape

  predicate MustShift(c: Code, extra: Code) {
    c < 32 || c == extra
  }

  /** `chr(ord(c) + 64)` is a code point for every character of s that is moved. */
  predicate Escapable(s: Text, extra: Code) {
    extra + SHIFT < MAX_CODE || extra !in s
  }

  function EscapedCode(c: Code, extra: Code): Text
    requires Escapable([c], extra)
  {
    assert c in [c];
    if MustShift(c, extra) then [PERCENT, c + SHIFT]
    else if c == PERCENT then [PERCENT, PERCENT]
    else [c]
  }

  function Escaped(s: Text, extra: Code): Text
    requires Escapable(s, extra)
  {
    if s == [] then [] else EscapedCode(s[0], extra) + Escaped(s[1..], extra)
  }

  lemma {:induction false} EscapedAppend(s: Text, t: Text, extra: Code)
    requires Escapable(s, extra) && Escapable(t, extra)
    ensures Escapable(s + t, extra)
    ensures Escaped(s + t, extra) == Escaped(s, extra) + Escaped(t, extra)
  {
    hide EscapedCode;
    if s == [] {
      assert s + t == t;
    } else {
      EscapedAppend(s[1..], t, extra);
      assert (s + t)[1..] == s[1..] + t;
    }
  }

  lemma EscapedStep(str: Text, i: nat, extra: Code)
    requires i < |str|
    requires Escapable(str[..i], extra) && Escapable([str[i]], extra)
    ensures Escapable(str[..i + 1], extra)
    ensures Escaped(str[..i + 1], extra) == Escaped(str[..i], extra) + EscapedCode(str[i], extra)
  {
    assert str[..i + 1] == str[..i] + [str[i]];
    EscapedAppend(str[..i], [str[i]], extra);
  }

  /** Every character is escaped by itself, and this is how: with a ':' for
      the extra character, a line feed becomes "%J" and a ':' becomes "%z". */
  lemma WrittenAs(c: Code, s: Text, extra: Code)
    requires Escapable([c] + s, extra)
    ensures Escapable([c], extra) && Escapable(s, extra)
    ensures Escaped([c] + s, extra) == Escaped([c], extra) + Escaped(s, extra)
    ensures Escaped([c], extra) == if c < 32 || c == extra then [37, c + 64] else if c == 37 then [37, 37] else [c]
    ensures Escaped([10], 58) == Ascii("%J") && Escaped([58], 58) == Ascii("%z") && Escaped([37], 58) == Ascii("%%")
  {
    assert forall x: Code :: x in s ==> x in [c] + s;
    assert forall x: Code :: x in [c] ==> x in [c] + s;
    EscapedAppend([c], s, extra);
    forall x: Code | Escapable([x], extra)
      ensures Escaped([x], extra) == EscapedCode(x, extra)
    {
      assert [x][1..] == [];
    }
    assert 58 !in [10] && 58 !in [37];
    forall x: Code | x in {10, 37, 58}
      ensures Escaped([x], 58) == EscapedCode(x, 58)
    {
      assert [x][1..] == [];
    }
  }

  method Escape(str: Text, extra: Code) returns (r: Result<Text>)
    ensures r.Ok? <==> Escapable(str, extra)
    ensures r.Ok? ==> r.value == Escaped(str, extra)
    ensures r.Raise? ==> r.error == ValueError
  {
    hide Escaped;
    var s: Text := [];
    var i := 0;
    EscapedNothing(extra);
    assert str[..0] == [];
    while i < |str|
      invariant 0 <= i <= |str|
      invariant Escapable(str[..i], extra) && s == Escaped(str[..i], extra)
    {
      var c := str[i];
      if c < 32 || c == extra {
        if c + SHIFT >= MAX_CODE {
          return Raise(ValueError);
        }
        EscapedStep(str, i, extra);
        c := c + SHIFT;
        s := s + [PERCENT];
      } else {
        EscapedStep(str, i, extra);
        if c == PERCENT {
          s := s + [c];
        }
      }
      s := s + [c];
      i := i + 1;
    }
    assert str[..|str|] == str;
    return Ok(s);
  }

  lemma EscapedNothing(extra: Code)
    ensures Escaped([], extra) == []
  {
  }

  // -------------------------------------------------------------- unescape

  function Prepend(t: Text, r: Result<Text>): Result<Text> {
    if r.Ok? then Ok(t + r.value) else r
  }

  function Unescaped(s: Text): (r: Result<Text>)
    ensures r.Ok? ==> |r.value| <= |s|
    ensures r.Ok? && PERCENT in s ==> |r.value| < |s|
  {
    if s == [] then Ok([])
    else if s[0] != PERCENT then Prepend([s[0]], Unescaped(s[1..]))
    else if |s| == 1 then Raise(IndexError)
    else if s[1] == PERCENT then Prepend([PERCENT], Unescaped(s[2..]))
    else if s[1] < SHIFT then Raise(ValueError)
    else Prepend([s[1] - SHIFT], Unescaped(s[2..]))
  }

  lemma PrependLaws(s: Text, t: Text, r: Result<Text>)
    ensures Prepend([], r) == r
    ensures Prepend(s, Prepend(t, r)) == Prepend(s + t, r)
    ensures Prepend(s, Ok([])) == Ok(s)
  {
    if r.Ok? {
      assert [] + r.value == r.value;
      assert s + (t + r.value) == (s + t) + r.value;
    }
    assert s + [] == s;
  }

  /** What a text begins with is read by itself: a plain character as it is,
      "%%" as '%', and '%' before any other character as the one 64 below it,
      if there is one; a '%' at the end has nothing to read. */
  lemma ReadAs(c: Code, s: Text)
    ensures c != 37 ==> Unescaped([c] + s) == Prepend([c], Unescaped(s))
    ensures Unescaped([37, 37] + s) == Prepend([37], Unescaped(s))
    ensures c != 37 && 64 <= c ==> Unescaped([37, c] + s) == Prepend([c - 64], Unescaped(s))
    ensures c != 37 && c < 64 ==> Unescaped([37, c] + s) == Raise(ValueError)
    ensures Unescaped([37]) == Raise(IndexError) && Unescaped([]) == Ok([])
    ensures forall t: Text :: Prepend(t, Unescaped(s)) == if Unescaped(s).Ok? then Ok(t + Unescaped(s).value) else Unescaped(s)
  {
    assert ([c] + s)[1..] == s && ([37, 37] + s)[2..] == s && ([37, c] + s)[2..] == s;
  }

  method Unescape(str: Text) returns (r: Result<Text>)
    ensures r == Unescaped(str)
  {
    var s: Text := [];
    var i := 0;
    assert str[0..] == str;
    PrependLaws([], [], Unescaped(str));
    while i < |str|
      invariant 0 <= i <= |str|
      invariant Unescaped(str) == Prepend(s, Unescaped(str[i..]))
    {
      var c := str[i];
      UnescapedStep(str, i);
      if c == PERCENT {
        i := i + 1;
        if i >= |str| {
          return Raise(IndexError);
        }
        c := str[i];
        if c != PERCENT {
          if c < SHIFT {
            return Raise(ValueError);
          }
          c := c - SHIFT;
        }
      }
      PrependLaws(s, [c], Unescaped(str[i + 1..]));
      s := s + [c];
      i := i + 1;
    }
    PrependLaws(s, [], Ok([]));
    return Ok(s);
  }

  /** One round of the loop, from the text that is left to the text that is left after it. */
  lemma UnescapedStep(str: Text, i: nat)
    requires i < |str|
    ensures Unescaped(str[i..]) ==
      if str[i] != PERCENT then Prepend([str[i]], Unescaped(str[i + 1..]))
      else if i + 1 == |str| then Raise(IndexError)
      else if str[i + 1] == PERCENT then Prepend([PERCENT], Unescaped(str[i + 2..]))
      else if str[i + 1] < SHIFT then Raise(ValueError)
      else Prepend([str[i + 1] - SHIFT], Unescaped(str[i + 2..]))
  {
    var rest := str[i..];
    assert rest[1..] == str[i + 1..];
    if i + 1 < |str| {
      assert rest[1] == str[i + 1] && rest[2..] == str[i + 2..];
    }
  }

  // ------------------------------------------------------------ round trips

  /** Unescaping undoes escaping, for every string and every extra character. */
  lemma {:induction false} UnescapeUndoesEscape(s: Text, extra: Code)
    requires Escapable(s, extra)
    ensures Unescaped(Escaped(s, extra)) == Ok(s)
  {
    if s != [] {
      var rest := Escaped(s[1..], extra);
      UnescapeUndoesEscape(s[1..], extra);
      var e := EscapedCode(s[0], extra);
      var whole := e + rest;
      if |e| == 1 {
        assert whole[1..] == rest;
      } else {
        assert whole[2..] == rest;
      }
      assert [s[0]] + s[1..] == s;
    }
  }

  /** A text as the escaper writes it: no raw character that it would have
      moved, and after every '%' (pairing left to right) a character that it writes there. */
  predicate Canonical(s: Text, extra: Code) {
    if s == [] then true
    else if s[0] != PERCENT then !MustShift(s[0], extra) && Canonical(s[1..], extra)
    else if |s| == 1 then false
    else
      && (if s[1] == PERCENT then extra != PERCENT
          else SHIFT <= s[1] && MustShift(s[1] - SHIFT, extra))
      && Canonical(s[2..], extra)
  }

  lemma {:induction false} EscapedIsCanonical(s: Text, extra: Code)
    requires Escapable(s, extra)
    ensures Canonical(Escaped(s, extra), extra)
  {
    if s != [] {
      EscapedIsCanonical(s[1..], extra);
      var e := EscapedCode(s[0], extra);
      var whole := e + Escaped(s[1..], extra);
      assert whole[|e|..] == Escaped(s[1..], extra);
    }
  }

  /** Escaping undoes unescaping exactly on the canonical texts. */
  lemma {:induction false} EscapeUndoesUnescapeExactly(s: Text, extra: Code)
    requires extra + SHIFT < MAX_CODE
    requires Unescaped(s).Ok?
    ensures Escaped(Unescaped(s).value, extra) == s <==> Canonical(s, extra)
  {
    var t := Unescaped(s).value;
    if Escaped(t, extra) == s {
      EscapedIsCanonical(t, extra);
    }
    if Canonical(s, extra) {
      CanonicalIsEscaped(s, extra);
    }
  }

  lemma {:induction false} CanonicalIsEscaped(s: Text, extra: Code)
    requires extra + SHIFT < MAX_CODE
    requires Canonical(s, extra)
    ensures Unescaped(s).Ok? && Escaped(Unescaped(s).value, extra) == s
  {
    if s != [] {
      var n := if s[0] == PERCENT then 2 else 1;
      CanonicalIsEscaped(s[n..], extra);
      var t := Unescaped(s).value;
      assert t[1..] == Unescaped(s[n..]).value;
      assert s == s[..n] + s[n..];
    }
  }

  /** The texts the escaper can write are exactly the canonical ones. */
  lemma EscaperRange(s: Text, extra: Code)
    requires extra + SHIFT < MAX_CODE
    ensures (exists t: Text :: Escaped(t, extra) == s) <==> Canonical(s, extra)
  {
    forall t: Text | Escaped(t, extra) == s
      ensures Canonical(s, extra)
    {
      EscapedIsCanonical(t, extra);
    }
    if Canonical(s, extra) {
      CanonicalIsEscaped(s, extra);
    }
  }

  // ---------------------------------------------- which characters come out

  /** No control character is ever written. */
  lemma {:induction false} EscapedHasNoControls(s: Text, extra: Code)
    requires Escapable(s, extra)
    ensures forall c <- Escaped(s, extra) :: 32 <= c
  {
    if s != [] {
      EscapedHasNoControls(s[1..], extra);
    }
  }

  /** A character that the escaper writes after a '%', or '%' itself. */
  predicate Reused(extra: Code) {
    extra == PERCENT || SHIFT <= extra < SHIFT + 32
  }

  lemma {:induction false} EscapedHidesExtra(s: Text, extra: Code)
    requires extra + SHIFT < MAX_CODE
    requires !Reused(extra)
    ensures extra !in Escaped(s, extra)
  {
    if s != [] {
      EscapedHidesExtra(s[1..], extra);
    }
  }

  /** The extra character can serve as a separator exactly when the escaper
      does not reuse it in its own output. */
  lemma ExtraIsSeparatorExactly(extra: Code)
    requires extra + SHIFT < MAX_CODE
    ensures (forall s: Text :: extra !in Escaped(s, extra)) <==> !Reused(extra)
  {
    if Reused(extra) {
      var s: Text := [if extra == PERCENT then PERCENT else extra - SHIFT];
      assert Escaped(s, extra) == EscapedCode(s[0], extra) + [];
      assert extra == Escaped(s, extra)[if extra == PERCENT then 0 else 1];
      assert extra in Escaped(s, extra);
    } else {
      forall s: Text
        ensures extra !in Escaped(s, extra)
      {
        EscapedHidesExtra(s, extra);
      }
    }
  }
}
