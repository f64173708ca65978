/**
The Python string operations the message format relies on: `split`, `rstrip`
and the joining of fields by a separator.
*/
module Fields {
  import opened Escape
  import opened Sequences
  import Wrappers

  /** Index of the first separator, or the length of the text. */
  function Find(s: Text, sep: Code): (k: nat)
    ensures k <= |s|
    ensures forall j :: 0 <= j < k ==> s[j] != sep
    ensures k < |s| ==> s[k] == sep
  {
    if s == [] || s[0] == sep then 0
    else
      Find(s[1..], sep) + 1
  }

  predicate Free(f: Text, sep: Code) {
    sep !in f
  }

  lemma FindIsFirst(f: Text, sep: Code, rest: Text)
    requires Free(f, sep)
    ensures Find(f + [sep] + rest, sep) == |f|
  {
    var s := f + [sep] + rest;
    assert s[|f|] == sep;
    assert forall j :: 0 <= j < |f| ==> s[j] == f[j];
  }

  /** `s.split(sep, max)`: at most max cuts, from the left. */
  function SplitN(s: Text, sep: Code, max: nat): (fs: seq<Text>)
    ensures 1 <= |fs| <= max + 1
    decreases max
  {
    var k := Find(s, sep);
    if max == 0 || k == |s| then [s]
    else
      [s[..k]] + SplitN(s[k + 1..], sep, max - 1)
  }

  /** `s.split(sep)`: no limit is reached, a text has no more separators than characters. */
  function Split(s: Text, sep: Code): (fs: seq<Text>)
    ensures 1 <= |fs|
  {
    SplitN(s, sep, |s|)
  }

  function Join(fs: seq<Text>, sep: Code): Text
    requires fs != []
  {
    if |fs| == 1 then fs[0] else fs[0] + [sep] + Join(fs[1..], sep)
  }

  /** The pieces stand in order, with one separator between any two. */
  lemma {:induction false} JoinInTwo(a: seq<Text>, b: seq<Text>, sep: Code)
    requires a != [] && b != []
    ensures Join(a + b, sep) == Join(a, sep) + [sep] + Join(b, sep)
    ensures |a| == 1 ==> Join(a, sep) == a[0]
  {
    assert (a + b)[1..] == a[1..] + b;
    if |a| > 1 {
      JoinInTwo(a[1..], b, sep);
      var x, y, z := Join(a[1..], sep), Join(b, sep), a[0] + [sep];
      assert z + (x + [sep] + y) == z + x + [sep] + y;
    } else {
      assert (a + b)[1..] == b;
    }
  }

  lemma SplitFirst(f: Text, rest: Text, sep: Code, max: nat)
    requires Free(f, sep) && 0 < max
    ensures SplitN(f + [sep] + rest, sep, max) == [f] + SplitN(rest, sep, max - 1)
  {
    var s := f + [sep] + rest;
    FindIsFirst(f, sep, rest);
    assert s[|f|] == sep;
    assert s[..|f|] == f && s[|f| + 1..] == rest;
  }

  /** Splitting recovers the fields that were joined, when none holds the separator. */
  lemma {:induction false} SplitUndoesJoin(fs: seq<Text>, sep: Code, max: nat)
    requires fs != [] && |fs| - 1 <= max
    requires forall f <- fs :: Free(f, sep)
    ensures SplitN(Join(fs, sep), sep, max) == fs
  {
    hide SplitN, Find;
    var head, tail := fs[0], fs[1..];
    assert Free(head, sep);
    if tail == [] {
      NoCut(head, sep, max);
    } else {
      assert fs == [head] + tail;
      SplitUndoesJoin(tail, sep, max - 1);
      SplitFirst(head, Join(tail, sep), sep, max);
    }
  }

  lemma NoCut(s: Text, sep: Code, max: nat)
    requires Free(s, sep) || max == 0
    ensures SplitN(s, sep, max) == [s]
  {
    var k := Find(s, sep);
    assert k < |s| ==> s[k] in s;
  }

  lemma CutAt(s: Text, k: nat)
    requires k < |s|
    ensures s[..k] + [s[k]] + s[k + 1..] == s
  {
  }

  lemma JoinCons(f: Text, fs: seq<Text>, sep: Code)
    requires fs != []
    ensures Join([f] + fs, sep) == f + [sep] + Join(fs, sep)
  {
    assert ([f] + fs)[1..] == fs;
  }

  lemma SplitCases(s: Text, sep: Code, max: nat)
    ensures var k := Find(s, sep);
      if max == 0 || k == |s| then Join(SplitN(s, sep, max), sep) == s
      else SplitN(s, sep, max) == [s[..k]] + SplitN(s[k + 1..], sep, max - 1)
  {
  }

  lemma {:induction false} JoinUndoesSplit(s: Text, sep: Code, max: nat)
    ensures Join(SplitN(s, sep, max), sep) == s
  {
    hide SplitN, Join, Find;
    SplitCases(s, sep, max);
    var k := Find(s, sep);
    if max != 0 && k < |s| {
      JoinUndoesSplit(s[k + 1..], sep, max - 1);
      JoinCons(s[..k], SplitN(s[k + 1..], sep, max - 1), sep);
      CutAt(s, k);
    }
  }

  /** All fields but the last are free of the separator; the last one too
      when the cuts were not used up. */
  lemma {:induction false} SplitFieldsAreFree(s: Text, sep: Code, max: nat)
    ensures var fs := SplitN(s, sep, max);
      && (forall f <- fs[..|fs| - 1] :: Free(f, sep))
      && (|fs| <= max ==> Free(fs[|fs| - 1], sep))
  {
    hide SplitN, Find, Free;
    SplitCases(s, sep, max);
    FreeBefore(s, sep);
    var k := Find(s, sep);
    if max != 0 && k < |s| {
      SplitFieldsAreFree(s[k + 1..], sep, max - 1);
      FreeCons(s[..k], SplitN(s[k + 1..], sep, max - 1), sep, max - 1);
    } else {
      NotCut(s, sep, max);
    }
  }

  lemma FreeBefore(s: Text, sep: Code)
    ensures Free(s[..Find(s, sep)], sep) && (Find(s, sep) == |s| ==> Free(s, sep))
  {
  }

  lemma NotCut(s: Text, sep: Code, max: nat)
    requires max == 0 || Find(s, sep) == |s|
    ensures SplitN(s, sep, max) == [s] && [s][..0] == []
  {
  }

  lemma FreeCons(f: Text, fs: seq<Text>, sep: Code, max: nat)
    requires Free(f, sep) && fs != []
    requires (forall g <- fs[..|fs| - 1] :: Free(g, sep)) && (|fs| <= max ==> Free(fs[|fs| - 1], sep))
    ensures var all := [f] + fs;
      && (forall g <- all[..|all| - 1] :: Free(g, sep))
      && (|all| <= max + 1 ==> Free(all[|all| - 1], sep))
  {
    hide Free;
    assert ([f] + fs)[..|fs|] == [f] + fs[..|fs| - 1];
  }

  lemma {:induction false} SplitEnough(s: Text, sep: Code, max: nat)
    requires |s| <= max
    ensures |SplitN(s, sep, max)| <= |s| + 1
    ensures SplitN(s, sep, max) == Split(s, sep)
    ensures forall f <- Split(s, sep) :: Free(f, sep)
    decreases |s|
  {
    var k := Find(s, sep);
    if k < |s| {
      SplitEnough(s[k + 1..], sep, max - 1);
      SplitEnough(s[k + 1..], sep, |s| - 1);
    }
  }

  lemma {:induction false} JoinLength(fs: seq<Text>, sep: Code)
    requires fs != []
    ensures |Join(fs, sep)| >= |fs| - 1
  {
    if |fs| > 1 {
      JoinLength(fs[1..], sep);
    }
  }

  lemma SplitAllUndoesJoin(fs: seq<Text>, sep: Code)
    requires fs != []
    requires forall f <- fs :: Free(f, sep)
    ensures Split(Join(fs, sep), sep) == fs
  {
    JoinLength(fs, sep);
    SplitUndoesJoin(fs, sep, |Join(fs, sep)|);
  }

  /** Escaped fields joined by their extra character can always be told apart
      again, whatever the fields hold. */
  lemma JoinedEscapedFieldsRecovered(fields: seq<Text>, sep: Code)
    requires fields != [] && sep + SHIFT < MAX_CODE && !Reused(sep)
    ensures var sent := Join(seq(|fields|, i requires 0 <= i < |fields| => Escaped(fields[i], sep)), sep);
      var got := Split(sent, sep);
      && |got| == |fields|
      && forall i :: 0 <= i < |fields| ==> Unescaped(got[i]) == Wrappers.Ok(fields[i])
  {
    var es := seq(|fields|, i requires 0 <= i < |fields| => Escaped(fields[i], sep));
    forall i | 0 <= i < |fields|
      ensures Free(es[i], sep) && Unescaped(es[i]) == Wrappers.Ok(fields[i])
    {
      EscapedHidesExtra(fields[i], sep);
      UnescapeUndoesEscape(fields[i], sep);
    }
    SplitAllUndoesJoin(es, sep);
  }

  // ---------------------------------------------------------------- rstrip

  /** The code points for which Python's `str.isspace` holds. */
  predicate IsSpace(c: Code) {
    || 9 <= c <= 13 || 28 <= c <= 32 || c == 0x85 || c == 0xA0 || c == 0x1680
    || 0x2000 <= c <= 0x200A || c == 0x2028 || c == 0x2029 || c == 0x202F
    || c == 0x205F || c == 0x3000
  }

  lemma SpacesAre(c: Code)
    ensures IsSpace(c) <==> c in {9, 10, 11, 12, 13, 28, 29, 30, 31, 32, 133, 160, 5760, 8192, 8193, 8194, 8195, 8196,
      8197, 8198, 8199, 8200, 8201, 8202, 8232, 8233, 8239, 8287, 12288}
  {
  }

  function RStrip(s: Text): Text {
    if s != [] && IsSpace(s[|s| - 1]) then RStrip(s[..|s| - 1]) else s
  }

  /** The longest prefix that does not end in white space. */
  lemma {:induction false} RStripIsLongest(s: Text)
    ensures var r := RStrip(s);
      && r <= s
      && (r != [] ==> !IsSpace(r[|r| - 1]))
      && forall i :: |r| <= i < |s| ==> IsSpace(s[i])
  {
    if s != [] && IsSpace(s[|s| - 1]) {
      RStripIsLongest(s[..|s| - 1]);
    }
  }

  lemma RStripLast(s: Text, c: Code)
    ensures RStrip(s + [c]) == if IsSpace(c) then RStrip(s) else s + [c]
  {
    assert (s + [c])[..|s|] == s;
  }

  /** A text that does not end in white space shields what precedes it. */
  lemma {:induction false} RStripKeepsFront(a: Text, b: Text)
    requires a == [] || !IsSpace(a[|a| - 1])
    ensures RStrip(a + b) == a + RStrip(b)
  {
    if b == [] {
      Unit(a);
      return;
    }
    hide RStrip, IsSpace;
    var front, c := b[..|b| - 1], b[|b| - 1];
    RStripKeepsFront(a, front);
    RStripLast(front, c);
    RStripLast(a + front, c);
    FrontLast(b);
    Assoc(a, front, [c]);
  }
}
