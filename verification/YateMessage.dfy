/**
The YATEMessage object with its loops over the attribute dictionary
(checker/helpline/message.py), proved against the functions of Wire.
*/
module YateMessage {
  import opened Wrappers
  import opened Escape
  import opened Fields
  import opened Wire
  import opened Sequences

  class YATEMessage {
    var mid: Text
    var timestamp: Text
    var name: Option<Text>
    var retvalue: Option<Text>
    var attrs: Option<seq<Attr>>
    var kind: Kind
    var returned: bool

    function Value(): Message
      reads this
    {
      Message(mid, timestamp, name, retvalue, attrs, kind)
    }

    constructor (env: Env, mid: Text, timestamp: Text, name: Option<Text>, retvalue: Option<Text>,
                 attrs: Option<seq<Attr>>, kind: Kind)
      ensures Value() == NewMessage(env, mid, timestamp, name, retvalue, attrs, kind)
      ensures !returned
    {
      this.name, this.kind := name, kind;
      var ts := timestamp;
      if ts == [] {
        ts := env.now;
      }
      this.timestamp := ts;
      if mid != [] {
        this.mid := mid;
      } else {
        this.mid := ts + env.suffix;
      }
      this.returned, this.retvalue, this.attrs := false, retvalue, attrs;
    }

    method FormatAttrs() returns (r: Result<Text>)
      ensures r == if attrs.Some? then Ok(AttrsText(attrs.value)) else Raise(AttributeError)
    {
      if attrs.None? {
        return Raise(AttributeError);
      }
      hide AttrsText;
      var items := attrs.value;
      var result: Text := [];
      var i := 0;
      AttrsTextEnd(result, items);
      while i < |items|
        invariant 0 <= i <= |items|
        invariant AttrsText(items) == result + AttrsText(items[i..])
      {
        var value := Escape.Escape(items[i].value, COLON);
        var a := items[i];
        SuffixHead(items, i);
        AttrsTextStep(result, items[i..]);
        result := result + [COLON] + a.key + [EQUALS] + value.value;
        i := i + 1;
      }
      assert items[i..] == [];
      AttrsTextEnd(result, items);
      return Ok(result);
    }

    method FormatMessageText() returns (r: Result<Text>)
      ensures r.Ok? <==> Printable(Value())
      ensures r.Ok? ==> r.value == FormatMessage(Value())
    {
      var result := RequestTag() + [COLON] + mid + [COLON] + timestamp;
      if name.None? {
        return Raise(TypeError);
      }
      var text := Escape.Escape(name.value, COLON);
      result := result + [COLON] + text.value;
      result := result + [COLON];
      ghost var front := result;
      if retvalue.Some? && retvalue.value != [] {
        text := Escape.Escape(retvalue.value, COLON);
        result := result + text.value;
      } else {
        assert result == front + [];
      }
      assert result == front + Esc(RetText(Value()));
      var tail := FormatAttrs();
      if tail.Raise? {
        return tail;
      }
      hide Field, Esc, AttrsText;
      RequestShape(mid, timestamp, Esc(name.value), Esc(RetText(Value())), AttrsText(attrs.value));
      return Ok(result + tail.value);
    }

    method FormatMessageResponse(handled: bool) returns (r: Result<Text>)
      ensures r.Ok? <==> Printable(Value())
      ensures r.Ok? ==> r.value == Wire.FormatResponse(Value(), handled)
    {
      var result := ResponseTag() + [COLON] + mid + [COLON] + FlagText(handled);
      if name.None? {
        return Raise(TypeError);
      }
      var text := Escape.Escape(name.value, COLON);
      result := result + [COLON] + text.value;
      ghost var front := result + [COLON];
      if retvalue.Some? && retvalue.value != [] {
        text := Escape.Escape(retvalue.value, COLON);
        result := result + [COLON] + text.value;
      } else {
        result := result + [COLON];
        assert result == front + [];
      }
      assert result == front + Esc(RetText(Value()));
      var tail := FormatAttrs();
      if tail.Raise? {
        return tail;
      }
      hide Field, Esc, AttrsText;
      ResponseShape(mid, FlagText(handled), Esc(name.value), Esc(RetText(Value())), AttrsText(attrs.value));
      return Ok(result + tail.value);
    }

    method SetRetValue(value: Option<Text>)
      modifies this`retvalue
      ensures retvalue == value
    {
      retvalue := value;
    }

    /** Answering a message: a return value that is given and not empty replaces
        the one that came in; nothing else in the message changes. */
    method FormatResponse(handled: bool, retValue: Option<Text>) returns (r: Result<Text>)
      modifies this`retvalue, this`returned
      ensures Value() == old(Value()).(retvalue := retvalue)
      ensures retvalue == if retValue.Some? && retValue.value != [] then retValue else old(retvalue)
      ensures r.Ok? <==> Printable(Value())
      ensures r.Ok? ==> r.value == Wire.FormatResponse(Value(), handled)
      ensures returned == (old(returned) || r.Ok?)
    {
      if retValue.Some? && retValue.value != [] {
        SetRetValue(retValue);
      }
      r := FormatMessageResponse(handled);
      if r.Ok? {
        returned := true;
      }
    }
  }

  lemma AttrsTextStep(result: Text, attrs: seq<Attr>)
    requires attrs != []
    ensures result + AttrsText(attrs)
         == result + [COLON] + attrs[0].key + [EQUALS] + Esc(attrs[0].value) + AttrsText(attrs[1..])
  {
    hide Esc;
    var a, rest := attrs[0], AttrsText(attrs[1..]);
    assert AttrsText(attrs) == [COLON] + AttrField(a) + rest;
    assert [COLON] + (a.key + [EQUALS] + Esc(a.value)) == [COLON] + a.key + [EQUALS] + Esc(a.value);
  }

  lemma AttrsTextEnd(result: Text, attrs: seq<Attr>)
    ensures result + AttrsText([]) == result && [] + AttrsText(attrs) == AttrsText(attrs)
    ensures attrs[0..] == attrs
  {
  }

  lemma RequestShape(a: Text, b: Text, c: Text, d: Text, t: Text)
    ensures RequestTag() + [COLON] + a + [COLON] + b + [COLON] + c + [COLON] + d + t
         == Field(RequestTag(), Field(a, Field(b, Field(c, d + t))))
  {
  }

  lemma ResponseShape(a: Text, b: Text, c: Text, d: Text, t: Text)
    ensures ResponseTag() + [COLON] + a + [COLON] + b + [COLON] + c + [COLON] + d + t
         == Field(ResponseTag(), Field(a, Field(b, Field(c, d + t))))
  {
  }

  /** `_parse_attrs`: the dictionary is filled piece by piece. */
  method ParseAttributes(values: Text) returns (r: Result<seq<Attr>>)
    ensures r == ParseAttrs(values)
  {
    var pieces := Split(values, COLON);
    var attrs: seq<Attr> := [];
    var i := 0;
    while i < |pieces|
      invariant 0 <= i <= |pieces|
      invariant FromPieces(pieces, []) == FromPieces(pieces[i..], attrs)
    {
      assert pieces[i..][1..] == pieces[i + 1..];
      var kv := SplitN(pieces[i], EQUALS, 1);
      if |kv| != 2 {
        return Raise(ValueError);
      }
      var value := Escape.Unescape(kv[1]);
      if value.Raise? {
        return Raise(value.error);
      }
      attrs := Put(attrs, kv[0], value.value);
      i := i + 1;
    }
    return Ok(attrs);
  }
}
