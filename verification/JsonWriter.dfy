/** Writing values out, and from a text to a value and back through the mutable buffer (json.h). */
module JsonWriter {
  import opened Options
  import opened Basics
  import opened JsonText
  import opened JsonBuffer
  import opened JsonReader
  import JsonRoundTrip

  // ---------------------------------------------------------------- printing

  lemma {:induction false} EscapedSplit(s: string, i: nat)
    requires i < |s|
    ensures Escaped(s[..i + 1]) == Escaped(s[..i]) + EscapedChar(s[i])
    decreases i
  {
    if i == 0 {
      assert s[..1][1..] == "" && EscapedChar(s[0]) + "" == "" + EscapedChar(s[0]);
    } else {
      EscapedSplit(s[1..], i - 1);
      EscapedFirst(s, i + 1);
      EscapedFirst(s, i);
      Grouped(EscapedChar(s[0]), Escaped(s[1..][..i - 1]), EscapedChar(s[i]));
    }
  }

  lemma EscapedFirst(s: string, i: nat)
    requires 0 < i <= |s|
    ensures Escaped(s[..i]) == EscapedChar(s[0]) + Escaped(s[1..][..i - 1])
  {
    assert s[..i][1..] == s[1..][..i - 1];
  }

  /** `escape`: appends to what is there. */
  method Escape(str: string, out: string) returns (ret: string)
    ensures ret == out + Escaped(str)
  {
    ret := out;
    var i := 0;
    while i < |str|
      invariant i <= |str| && ret == out + Escaped(str[..i])
    {
      var c := str[i];
      EscapedSplit(str, i);
      ret := ret + EscapedChar(c);
      i := i + 1;
    }
    assert str[..|str|] == str;
  }

  method DumpString(str: string, out: string) returns (ret: string)
    ensures ret == out + Quoted(str)
  {
    ret := out + "\"";
    ret := Escape(str, ret);
    ret := ret + "\"";
  }

  lemma ItemDumped(v: Json, i: nat, ret: string)
    requires v.List? && i < |v.items|
    ensures ret + DumpItems(v, i) == (if i > 0 then ret + "," else ret) + Dump(v.items[i]) + DumpItems(v, i + 1)
  {
    GroupedInner(ret, if i == 0 then "" else ",", Dump(v.items[i]), DumpItems(v, i + 1));
    assert ret + "" == ret;
  }

  lemma MemberDumped(v: Json, i: nat, ret: string)
    requires v.Object? && i < |v.members|
    ensures ret + DumpMembers(v, i) ==
            (if i > 0 then ret + "," else ret) + Quoted(v.members[i].0) + ":" + Dump(v.members[i].1) + DumpMembers(v, i + 1)
  {
    var comma := if i == 0 then "" else ",";
    GroupedInner(ret, comma, Quoted(v.members[i].0), ":" + Dump(v.members[i].1) + DumpMembers(v, i + 1));
    GroupedMember(comma, Quoted(v.members[i].0), ":", Dump(v.members[i].1), DumpMembers(v, i + 1));
    GroupedMember(ret + comma, Quoted(v.members[i].0), ":", Dump(v.members[i].1), DumpMembers(v, i + 1));
    assert ret + "" == ret;
  }

  lemma GroupedInner(a: string, b: string, c: string, d: string)
    ensures a + (b + c + d) == (a + b) + c + d
  {
  }

  lemma GroupedMember(a: string, b: string, c: string, d: string, e: string)
    ensures a + b + c + d + e == a + b + (c + d + e)
  {
  }

  /** `dump_internal` */
  method DumpInternal(v: Json, out: string) returns (ret: string)
    ensures ret == out + Dump(v)
    decreases v
  {
    match v
    case Null => ret := out + "null";
    case False => ret := out + "false";
    case True => ret := out + "true";
    case Number(text) => ret := out + text;
    case String(bytes) => ret := DumpString(bytes, out);
    case List(items) =>
      ret := out + "[";
      var i := 0;
      while i < |items|
        invariant i <= |items| && ret + DumpItems(v, i) == out + Dump(v)
      {
        ItemDumped(v, i, ret);
        if i > 0 {
          ret := ret + ",";
        }
        ret := DumpInternal(items[i], ret);
        i := i + 1;
      }
      ret := ret + "]";
    case Object(members) =>
      ret := out + "{";
      var i := 0;
      while i < |members|
        invariant i <= |members| && ret + DumpMembers(v, i) == out + Dump(v)
      {
        MemberDumped(v, i, ret);
        if i > 0 {
          ret := ret + ",";
        }
        ret := DumpString(members[i].0, ret);
        ret := ret + ":";
        ret := DumpInternal(members[i].1, ret);
        i := i + 1;
      }
      ret := ret + "}";
  }

  // ---------------------------------------------------------------- loading

  /** `load`: the text is copied, terminated and read in place. The spans own disjoint parts of the copy. */
  method Load(data: string) returns (r: Option<Value>, buffer: array<char>, ghost spans: set<Span>)
    ensures match Parse(data + "\0")
            case None => r == None
            case Some(json) => r.Some? && Shows(r.value, json, spans)
    ensures r.Some? ==> fresh(buffer) && fresh(spans) && Kept(spans, buffer[..], buffer.Length)
  {
    buffer := new char[|data| + 1](i requires 0 <= i <= |data| => if i < |data| then data[i] else '\0');
    assert buffer[..] == data + "\0";
    var parser := new Parser(buffer);
    parser.WsSkip();
    r := parser.DecodeValue(0);
    spans := {};
    if r.Some? {
      parser.WsSkip();
      spans := parser.spans;
      if buffer[parser.p] != '\0' {
        r := None;
      }
    }
  }

  /** `s`, in a document: nothing that another span stands for is changed. */
  method ReadKept(x: Span, buffer: array<char>, ghost spans: set<Span>, ghost n: nat) returns (bytes: string)
    requires x in spans && x.kind == StringText && Kept(spans, buffer[..], n)
    modifies x, buffer
    ensures bytes == x.bytes && Kept(spans, buffer[..], n)
  {
    ghost var was := buffer[..];
    assert x.Ok(was);
    bytes := Read(x, buffer);
    forall y | y in spans - {x} ensures Same(y, was, buffer[..]) && Apart(x, y) {
      assert Apart(x, y);
    }
    AllUntouched(spans - {x}, was, buffer[..], n);
    Joined(spans - {x}, buffer[..], n, x, n);
    assert spans - {x} + {x} == spans;
  }

  /** A read value made into one that can be written. Whatever has been read before, it is what the text said. */
  method Written(v: Value, buffer: array<char>, ghost spans: set<Span>, ghost n: nat, ghost json: Json) returns (w: Json)
    requires Shows(v, json, spans) && Kept(spans, buffer[..], n)
    modifies spans, buffer
    ensures w == json && Kept(spans, buffer[..], n)
    decreases v
  {
    match v
    case Null => w := Json.Null;
    case False => w := Json.False;
    case True => w := Json.True;
    case Number(x) =>
      assert x.Ok(buffer[..]);
      w := Json.Number(buffer[x.start..x.end]);
    case String(x) =>
      var bytes := ReadKept(x, buffer, spans, n);
      w := Json.String(bytes);
    case List(items) =>
      var list: seq<Json> := [];
      for i := 0 to |items|
        invariant list == json.items[..i] && Kept(spans, buffer[..], n)
      {
        var item := Written(items[i], buffer, spans, n, json.items[i]);
        list := list + [item];
      }
      w := Json.List(list);
    case Object(members) =>
      var list: seq<(string, Json)> := [];
      for i := 0 to |members|
        invariant list == json.members[..i] && Kept(spans, buffer[..], n)
      {
        assert MemberShows(members[i], json.members[i], spans);
        var x := members[i].0;
        assert x.Ok(buffer[..]);
        var key := buffer[x.start..x.end];
        var value := Written(members[i].1, buffer, spans, n, json.members[i].1);
        list := list + [(key, value)];
      }
      w := Json.Object(list);
  }

  /** Loading a text in place, and converting what was read, gives what the text says. */
  method LoadBack(text: string, ghost said: Option<Json>) returns (r: Option<Json>)
    requires Parse(text + "\0") == said
    ensures r == said
  {
    var value, buffer;
    ghost var spans;
    value, buffer, spans := Load(text);
    if value.None? {
      return None;
    }
    var w := Written(value.value, buffer, spans, buffer.Length, said.value);
    r := Some(w);
  }

  /** The round trip, through the buffer. */
  method ThereAndBack(v: Json) returns (r: Option<Json>)
    requires JsonRoundTrip.Printable(v)
    ensures r == if JsonRoundTrip.NestedAtMost(v, 5000) then Some(v) else None
  {
    JsonRoundTrip.RoundTrip(v);
    var text := DumpInternal(v, "");
    assert text == Dump(v);
    r := LoadBack(text, if JsonRoundTrip.NestedAtMost(v, 5000) then Some(v) else None);
  }

  /** The same for the tokens of a value with any white space around them. */
  method SpacedBack(ghost v: Json, ghost gaps: seq<string>, ghost last: string, text: string) returns (r: Option<Json>)
    requires JsonRoundTrip.Printable(v) && |gaps| == |JsonRoundTrip.TokensOf(v)|
    requires forall i, j | 0 <= i < |gaps| && 0 <= j < |gaps[i]| ::
               gaps[i][j] == ' ' || gaps[i][j] == '\t' || gaps[i][j] == '\r' || gaps[i][j] == '\n'
    requires forall j | 0 <= j < |last| :: last[j] == ' ' || last[j] == '\t' || last[j] == '\r' || last[j] == '\n'
    requires text == JsonRoundTrip.Spread(JsonRoundTrip.TokensOf(v), gaps) + last
    ensures r == if JsonRoundTrip.NestedAtMost(v, 5000) then Some(v) else None
  {
    JsonRoundTrip.SpacedRoundTrip(v, gaps, last);
    r := LoadBack(text, if JsonRoundTrip.NestedAtMost(v, 5000) then Some(v) else None);
  }
}
