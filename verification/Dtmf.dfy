/**
The base-15 DTMF codec of the checker (helplinechecker_manual.py): every
character becomes two of the fifteen tones that are not '#'.
*/
module Dtmf {
  import opened Wrappers
  import opened Escape
  import opened Fields

  const BASE := 15
  const HASH: Code := '#' as int

  /** The largest code that two tones can carry, plus one. */
  const LIMIT := 225

  /** `_characters[i]`: the digits, the letters A to D, the star. */
  function Tone(i: nat): (c: Code)
    requires i < BASE
  {
    if i < 10 then '0' as int + i else if i < 14 then 'A' as int + i - 10 else '*' as int
  }

  predicate IsTone(c: Code) {
    '0' as int <= c <= '9' as int || 'A' as int <= c <= 'D' as int || c == '*' as int
  }

  /** `_characters.index(c)`. */
  function ToneIndex(c: Code): (i: nat)
    requires IsTone(c)
    ensures i < BASE && Tone(i) == c
  {
    if c <= '*' as int then 14 else if c <= '9' as int then c - '0' as int else c - 'A' as int + 10
  }

  /** The alphabet: fifteen different characters, '#' not among them. */
  lemma Alphabet(i: nat)
    requires i < BASE
    ensures IsTone(Tone(i)) && ToneIndex(Tone(i)) == i && Tone(i) != HASH
    ensures Tone(i) == Ascii("0123456789ABCD*")[i]
  {
  }

  predicate Fits(s: Text) {
    forall i :: 0 <= i < |s| ==> s[i] < LIMIT
  }

  function EncodedCode(c: Code): Text
    requires c < LIMIT
  {
    [Tone(c / BASE), Tone(c % BASE)]
  }

  function Encoded(s: Text): (r: Text)
    requires Fits(s)
    ensures |r| == 2 * |s|
  {
    if s == [] then [] else EncodedCode(s[0]) + Encoded(s[1..])
  }

  lemma {:induction false} EncodedAppend(s: Text, t: Text)
    requires Fits(s) && Fits(t)
    ensures Fits(s + t) && Encoded(s + t) == Encoded(s) + Encoded(t)
  {
    hide Tone, EncodedCode;
    if s == [] {
      assert s + t == t;
    } else {
      EncodedAppend(s[1..], t);
      assert (s + t)[1..] == s[1..] + t;
    }
  }

  /** The tones at a place: the two digits, in base 15, of the character there. */
  lemma {:induction false} EncodedAt(s: Text, i: nat)
    requires Fits(s) && i < |s|
    ensures s[i] / 15 < 15 && |Ascii("0123456789ABCD*")| == 15
    ensures Encoded(s)[2 * i] == Ascii("0123456789ABCD*")[s[i] / 15]
    ensures Encoded(s)[2 * i + 1] == Ascii("0123456789ABCD*")[s[i] % 15]
  {
    hide Tone;
    if i > 0 {
      EncodedAt(s[1..], i - 1);
      assert s[1..][i - 1] == s[i];
    } else {
      Alphabet(s[0] / 15);
      Alphabet(s[0] % 15);
    }
  }

  /** `_convert_Flag_DTMF`: indexing the alphabet fails above code 224. */
  method Encode(flag: Text) returns (r: Result<Text>)
    ensures r.Ok? <==> Fits(flag)
    ensures r.Ok? ==> r.value == Encoded(flag)
    ensures r.Raise? ==> r.error == IndexError
  {
    hide Tone, IsTone;
    var ret: Text := [];
    for i := 0 to |flag|
      invariant Fits(flag[..i]) && ret == Encoded(flag[..i])
    {
      var a, b := flag[i] / BASE, flag[i] % BASE;
      if a >= BASE {
        return Raise(IndexError);
      }
      assert flag[..i + 1] == flag[..i] + [flag[i]];
      EncodedAppend(flag[..i], [flag[i]]);
      assert Encoded([flag[i]]) == EncodedCode(flag[i]);
      ret := ret + [Tone(a)] + [Tone(b)];
    }
    assert flag[..|flag|] == flag;
    return Ok(ret);
  }

  function DecodedPair(a: Code, b: Code): (c: Code)
    requires IsTone(a) && IsTone(b)
    ensures c < LIMIT
  {
    ToneIndex(a) * BASE + ToneIndex(b)
  }

  /** Pair by pair; a last single tone is ignored. */
  function Decoded(cc: Text): Result<Text> {
    if |cc| < 2 then Ok([])
    else if !IsTone(cc[0]) || !IsTone(cc[1]) then Raise(ValueError)
    else Prepend([DecodedPair(cc[0], cc[1])], Decoded(cc[2..]))
  }

  /** Decoding fails exactly on a text with a character outside the alphabet
      in one of its pairs; a last single character is not looked at. */
  lemma {:induction false} DecodeFailsExactly(cc: Text)
    ensures Decoded(cc).Raise? <==> exists i :: 0 <= i < |cc| / 2 * 2 && cc[i] !in Ascii("0123456789ABCD*")
    ensures Decoded(cc).Raise? ==> Decoded(cc) == Raise(ValueError)
    ensures Decoded(cc).Ok? ==> |Decoded(cc).value| == |cc| / 2
  {
    hide Ascii, DecodedPair;
    if |cc| < 2 {
      return;
    }
    DecodeFailsExactly(cc[2..]);
    TonesAre(cc[0]);
    TonesAre(cc[1]);
    var n := |cc| / 2 * 2;
    assert |cc[2..]| / 2 * 2 == n - 2;
    forall i | 0 <= i < n - 2
      ensures cc[2..][i] == cc[i + 2]
    {
    }
    if i :| 0 <= i < n && cc[i] !in Ascii("0123456789ABCD*") {
      if i >= 2 {
        assert cc[2..][i - 2] !in Ascii("0123456789ABCD*");
      }
    }
  }

  lemma TonesAre(c: Code)
    ensures IsTone(c) <==> c in Ascii("0123456789ABCD*")
  {
    var all := Ascii("0123456789ABCD*");
    if IsTone(c) {
      Alphabet(ToneIndex(c));
      assert all[ToneIndex(c)] == c;
    } else {
      forall i | 0 <= i < 15
        ensures all[i] != c
      {
        Alphabet(i);
      }
    }
  }

  /** `_convert_DTMF_Flag`: `index` fails on a character that is no tone. */
  method Decode(cc: Text) returns (r: Result<Text>)
    ensures r == Decoded(cc)
  {
    var ret: Text := [];
    assert cc[0..] == cc;
    PrependLaws([], [], Decoded(cc));
    for c := 0 to |cc| / 2
      invariant Decoded(cc) == Prepend(ret, Decoded(cc[2 * c..]))
    {
      ghost var rest := cc[2 * c..];
      assert rest[2..] == cc[2 * (c + 1)..];
      if !IsTone(cc[2 * c]) || !IsTone(cc[2 * c + 1]) {
        return Raise(ValueError);
      }
      var code := DecodedPair(cc[2 * c], cc[2 * c + 1]);
      PrependLaws(ret, [code], Decoded(rest[2..]));
      ret := ret + [code];
    }
    PrependLaws(ret, [], Ok([]));
    return Ok(ret);
  }

  // ------------------------------------------------------------ round trips

  lemma PairRoundTrip(c: Code)
    requires c < LIMIT
    ensures var e := EncodedCode(c);
      && IsTone(e[0]) && IsTone(e[1]) && e[0] != HASH && e[1] != HASH
      && DecodedPair(e[0], e[1]) == c
  {
    Alphabet(c / BASE);
    Alphabet(c % BASE);
  }

  lemma {:induction false} DecodeUndoesEncode(s: Text)
    requires Fits(s)
    ensures Decoded(Encoded(s)) == Ok(s)
  {
    if s != [] {
      DecodeUndoesEncode(s[1..]);
      PairRoundTrip(s[0]);
      hide EncodedCode, DecodedPair, IsTone, Tone;
      assert Encoded(s)[2..] == Encoded(s[1..]);
      assert [s[0]] + s[1..] == s;
    }
  }

  lemma EncodePairRoundTrip(a: Code, b: Code)
    requires IsTone(a) && IsTone(b)
    ensures EncodedCode(DecodedPair(a, b)) == [a, b]
  {
    var i, j := ToneIndex(a), ToneIndex(b);
    hide Tone, ToneIndex, IsTone;
    QuotientAndRest(i, j);
  }

  lemma QuotientAndRest(i: nat, j: nat)
    requires j < BASE
    ensures (i * BASE + j) / BASE == i && (i * BASE + j) % BASE == j
  {
  }

  /** Encoding gives back what was decoded exactly when no tone was left over. */
  lemma {:induction false} EncodeUndoesDecodeExactly(cc: Text)
    requires Decoded(cc).Ok?
    ensures Fits(Decoded(cc).value)
    ensures Encoded(Decoded(cc).value) == cc <==> |cc| % 2 == 0
  {
    hide Encoded, EncodedCode, DecodedPair, IsTone;
    if |cc| < 2 {
      EncodedNothing();
    } else {
      var c, tail := DecodedPair(cc[0], cc[1]), Decoded(cc[2..]).value;
      EncodeUndoesDecodeExactly(cc[2..]);
      EncodePairRoundTrip(cc[0], cc[1]);
      EncodedCons(c, tail);
      var e := Encoded([c] + tail);
      assert e[2..] == Encoded(tail);
      assert cc == [cc[0], cc[1]] + cc[2..];
    }
  }

  lemma EncodedNothing()
    ensures Encoded([]) == []
  {
  }

  lemma EncodedCons(c: Code, s: Text)
    requires c < LIMIT && Fits(s)
    ensures Fits([c] + s) && Encoded([c] + s) == EncodedCode(c) + Encoded(s)
  {
    assert ([c] + s)[1..] == s;
  }

  lemma {:induction false} EncodedHasNoHash(s: Text)
    requires Fits(s)
    ensures Free(Encoded(s), HASH)
  {
    if s != [] {
      EncodedHasNoHash(s[1..]);
      PairRoundTrip(s[0]);
    }
  }

  /** Whatever follows on the line, the tones up to the first '#' are the
      payload, and they decode to what was sent. */
  lemma PayloadUpToHash(flag: Text, rest: Text)
    requires Fits(flag)
    ensures var stream := Encoded(flag) + Ascii("#") + rest;
      var read := stream[..Find(stream, '#' as int)];
      read == Encoded(flag) && Decoded(read) == Ok(flag)
  {
    EncodedHasNoHash(flag);
    assert Ascii("#") == [HASH];
    FindIsFirst(Encoded(flag), HASH, rest);
    DecodeUndoesEncode(flag);
  }
}
