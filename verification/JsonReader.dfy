/** The recursive reader over a mutable buffer (json.h): it accepts what `JsonText.Parse` accepts, and what it
    returns stands for the same value, whatever is read from the buffer and in whatever order. */
module JsonReader {
  import opened Options
  import opened Basics
  import opened JsonText
  import opened JsonBuffer
  import JsonRoundTrip

  /** `rvalue` */
  datatype Value =
    | Null
    | False
    | True
    | Number(text: Span)
    | String(chars: Span)
    | List(items: seq<Value>)
    | Object(members: seq<(Span, Value)>)

  /** The value stands for `json`, with these parts of the buffer. */
  ghost predicate Shows(v: Value, json: Json, spans: set<Span>) {
    match v
    case Null => json == Json.Null
    case False => json == Json.False
    case True => json == Json.True
    case Number(x) => x in spans && x.kind == NumberText && json == Json.Number(x.bytes)
    case String(x) => x in spans && x.kind == StringText && json == Json.String(x.bytes)
    case List(items) => json.List? && |json.items| == |items| && forall i | 0 <= i < |items| :: Shows(items[i], json.items[i], spans)
    case Object(members) =>
      && json.Object? && |json.members| == |members|
      && forall i | 0 <= i < |members| :: MemberShows(members[i], json.members[i], spans)
  }

  ghost predicate MemberShows(m: (Span, Value), member: (string, Json), spans: set<Span>) {
    m.0 in spans && m.0.kind == KeyText && m.0.bytes == member.0 && Shows(m.1, member.1, spans)
  }

  lemma {:induction false} ShowsStill(v: Value, json: Json, spans: set<Span>, more: set<Span>)
    requires Shows(v, json, spans) && spans <= more
    ensures Shows(v, json, more)
    decreases v
  {
    match v
    case List(items) =>
      forall i | 0 <= i < |items| {
        ShowsStill(items[i], json.items[i], spans, more);
      }
    case Object(members) =>
      forall i | 0 <= i < |members| {
        ShowsStill(members[i].1, json.members[i].1, spans, more);
      }
    case _ =>
  }

  ghost predicate AllShow(items: seq<Value>, jsons: seq<Json>, spans: set<Span>) {
    |items| == |jsons| && forall i | 0 <= i < |items| :: Shows(items[i], jsons[i], spans)
  }

  ghost predicate MembersShow(members: seq<(Span, Value)>, jsons: seq<(string, Json)>, spans: set<Span>) {
    |members| == |jsons| && forall i | 0 <= i < |members| :: MemberShows(members[i], jsons[i], spans)
  }

  lemma OneMore(items: seq<Value>, jsons: seq<Json>, known: set<Span>, spans: set<Span>, v: Value, json: Json)
    requires AllShow(items, jsons, known) && known <= spans && Shows(v, json, spans)
    ensures AllShow(items + [v], jsons + [json], spans)
  {
    forall i | 0 <= i < |items| {
      ShowsStill(items[i], jsons[i], known, spans);
    }
  }

  lemma OneMoreMember(members: seq<(Span, Value)>, jsons: seq<(string, Json)>, known: set<Span>, spans: set<Span>,
                      m: (Span, Value), member: (string, Json))
    requires MembersShow(members, jsons, known) && known <= spans && MemberShows(m, member, spans)
    ensures MembersShow(members + [m], jsons + [member], spans)
  {
    forall i | 0 <= i < |members| ensures MemberShows(members[i], jsons[i], spans) {
      ShowsStill(members[i].1, jsons[i].1, known, spans);
    }
  }

  // ---------------------------------------------------------------- children

  /** The array of a container's children, with room to grow. */
  class Children<T> {
    var l: array<T>
    var lsize: nat
    var lremain: nat

    ghost predicate Valid()
      reads this
    {
      lsize + lremain == l.Length
    }

    function Contents(): (s: seq<T>)
      requires Valid()
      reads this, l
      ensures |s| == lsize
    {
      l[..lsize]
    }

    constructor ()
      ensures Valid() && fresh(l) && Contents() == []
    {
      l, lsize, lremain := new T[0], 0, 0;
    }

    /** A full array is doubled, but grows by at least 4 to begin with and by at most 60000. */
    method EmplaceBack(v: T)
      requires Valid()
      modifies this, l
      ensures Valid() && (l == old(l) || fresh(l)) && Contents() == old(Contents()) + [v]
      ensures old(lremain) > 0 ==> l == old(l)
      ensures old(lremain) == 0 ==> l.Length == if old(lsize) > 60000 then old(lsize) + 60000 else if old(lsize) < 2 then 4 else 2 * old(lsize)
    {
      if lremain == 0 {
        var newSize := lsize + lsize;
        if newSize - lsize > 60000 {
          newSize := lsize + 60000;
        }
        if newSize < 4 {
          newSize := 4;
        }
        var p := new T[newSize](_ => v);
        var i := 0;
        while i < lsize
          invariant i <= lsize && p[..i] == l[..i]
          modifies p
        {
          p[i] := l[i];
          i := i + 1;
        }
        l := p;
        lremain := newSize - lsize;
      }
      l[lsize] := v;
      lsize := lsize + 1;
      lremain := lremain - 1;
    }
  }

  // ---------------------------------------------------------------- parsing

  lemma {:induction false} MoreDigits(s: string, p: nat, q: nat, state: nat)
    requires Terminated(s) && p <= q < |s| && state <= 7 && forall i | p <= i < q :: Digit(s[i])
    requires state in {3, 4, 6, 7}
    ensures NumberEnd(s, p, state) == NumberEnd(s, q, state)
    decreases q - p
  {
    if p < q && state != 7 {
      MoreDigits(s, p + 1, q, state);
    }
  }

  /** With these items read and this place reached, the whole is what it is. */
  ghost predicate ItemsGoOn(s: string, depth: nat, p: nat, items: seq<Json>, whole: Option<(Json, nat)>) {
    Terminated(s) && p < |s| && ParseItems(s, p, depth, items) == whole
  }

  ghost predicate MembersGoOn(s: string, depth: nat, p: nat, members: seq<(string, Json)>, whole: Option<(Json, nat)>) {
    Terminated(s) && p < |s| && ParseMembers(s, p, depth, members) == whole
  }

  ghost predicate AfterItem(s: string, depth: nat, q: nat, items: seq<Json>, whole: Option<(Json, nat)>) {
    && Terminated(s) && q < |s|
    && forall k {:trigger JsonRoundTrip.Look(k)} :: JsonRoundTrip.Look(k) ==>
         if s[q] == ']' then whole == Some((Json.List(items), q + 1))
         else if s[q] == ',' then ItemsGoOn(s, depth, Skip(s, q + 1), items, whole)
         else whole == None
  }

  lemma OneItem(s: string, depth: nat, p: nat, items: seq<Json>, whole: Option<(Json, nat)>, json: Json, end: nat)
    requires ItemsGoOn(s, depth, p, items, whole)
    requires p < end < |s| && ParseValue(s, p, depth + 1) == Some((json, end))
    ensures AfterItem(s, depth, Skip(s, end), items + [json], whole)
  {
  }

  ghost predicate AfterMember(s: string, depth: nat, q: nat, members: seq<(string, Json)>, whole: Option<(Json, nat)>) {
    && Terminated(s) && q < |s|
    && forall k {:trigger JsonRoundTrip.Look(k)} :: JsonRoundTrip.Look(k) ==>
         if s[q] == '}' then whole == Some((Json.Object(members), q + 1))
         else if s[q] == ',' then MembersGoOn(s, depth, Skip(s, q + 1), members, whole)
         else whole == None
  }

  lemma OneMember(s: string, depth: nat, p: nat, members: seq<(string, Json)>, whole: Option<(Json, nat)>, member: (string, Json), end: nat)
    requires MembersGoOn(s, depth, p, members, whole)
    requires p < end < |s| && ParseMember(s, p, depth) == Some((member, end))
    ensures AfterMember(s, depth, Skip(s, end), members + [member], whole)
  {
  }

  /** The key of a member, and where its value begins. */
  function ParseKey(s: string, p: nat): (r: Option<(string, nat)>)
    requires Terminated(s) && p < |s|
    ensures r.Some? ==> p < r.value.1 < |s|
  {
    match ParseString(s, p)
    case None => None
    case Some((key, end)) =>
      var q := Skip(s, end);
      if s[q] != ':' then None else Some((key, Skip(s, q + 1)))
  }

  lemma KeyFirst(s: string, p: nat, depth: nat)
    requires Terminated(s) && p < |s|
    ensures ParseMember(s, p, depth) ==
            match ParseKey(s, p)
            case None => None
            case Some((key, q)) =>
              match ParseValue(s, q, depth + 1)
              case None => None
              case Some((v, end)) => Some(((key, v), end))
  {
  }

  lemma SliceGrows(s: string, a: nat, q: nat, p: nat)
    requires a <= q < p <= |s|
    ensures s[a..p] == s[a..q] + s[q..p] && s[q] in s[q..p]
  {
    assert s[q..p][0] == s[q];
  }

  class Parser {
    /** The pointer that the source keeps is the buffer and a place in it. */
    const buffer: array<char>
    var p: nat
    /** The text, as it was. */
    ghost const source: string
    /** What has been read. */
    ghost var spans: set<Span>

    /** What is still to be read is as it was. */
    ghost predicate Ahead()
      reads this, buffer
    {
      && Terminated(source) && buffer.Length == |source| && p < |source|
      && forall i | p <= i < |source| :: buffer[i] == source[i]
    }

    ghost predicate Ready()
      reads this, buffer, spans
    {
      Ahead() && Kept(spans, buffer[..], p)
    }

    constructor (buffer: array<char>)
      requires Terminated(buffer[..])
      ensures Ready() && this.buffer == buffer && source == buffer[..] && p == 0 && spans == {}
    {
      this.buffer, p, source, spans := buffer, 0, buffer[..], {};
    }

    method Consume(c: char) returns (ok: bool)
      requires Ready() && c != '\0'
      modifies this`p
      ensures Ready() && ok == (source[old(p)] == c) && p == if ok then old(p) + 1 else old(p)
    {
      ok := buffer[p] == c;
      if ok {
        p := p + 1;
      }
    }

    method WsSkip()
      requires Ready()
      modifies this`p
      ensures Ready() && p == Skip(source, old(p))
    {
      while buffer[p] == ' ' || buffer[p] == '\t' || buffer[p] == '\r' || buffer[p] == '\n'
        invariant Ready() && Skip(source, p) == Skip(source, old(p))
        decreases |source| - p
      {
        p := p + 1;
      }
    }

    /** The span that begins at `start` joins those before it. */
    ghost method Keep(x: Span, was: string, from: nat)
      requires Kept(spans, was, from) && |was| == buffer.Length && from <= p && x.Ok(buffer[..])
      requires from <= x.Low() && x.High() <= p
      requires forall i | 0 <= i < from :: buffer[i] == was[i]
      modifies this`spans
      ensures spans == old(spans) + {x} && Kept(spans, buffer[..], p)
    {
      forall y | y in spans ensures Same(y, was, buffer[..]) && Apart(x, y) {
        assert y.Ok(was);
      }
      AllUntouched(spans, was, buffer[..], from);
      Joined(spans, buffer[..], from, x, p);
      spans := spans + {x};
    }

    method Hex(i: nat) returns (ok: bool)
      requires Ahead() && i < |source|
      ensures ok == HexDigit(buffer[i])
    {
      ok := '0' <= buffer[i] <= '9' || 'a' <= buffer[i] <= 'f' || 'A' <= buffer[i] <= 'F';
    }

    /** The part of the loop that begins at a backslash. */
    method SkipEscape() returns (ok: bool)
      requires Ahead() && buffer[p] == '\\'
      modifies this`p
      ensures Ahead() && StringEnd(source, old(p)) == if ok then StringEnd(source, p) else None
      ensures old(p) < p
    {
      p := p + 1;
      ghost var rest := source[p - 1..];
      if buffer[p] == 'u' {
        ok := Hex(p + 1);
        if ok {
          ok := Hex(p + 2);
        }
        if ok {
          ok := Hex(p + 3);
        }
        if ok {
          ok := Hex(p + 4);
        }
        if ok {
          p := p + 5;
        }
      } else {
        ok := Simple(buffer[p]);
        if ok {
          p := p + 1;
        }
      }
    }

    /** The place of the closing quote, and whether there was a backslash before it. */
    method ScanString() returns (ok: bool, escaping: bool)
      requires Ahead()
      modifies this`p
      ensures Ahead()
      ensures StringEnd(source, old(p)) == if ok then Some(p) else None
      ensures old(p) <= p && (ok ==> escaping == ('\\' in source[old(p)..p]))
    {
      ok, escaping := true, false;
      while ok && buffer[p] != '"'
        invariant Ahead() && old(p) <= p && StringEnd(source, old(p)) == if ok then StringEnd(source, p) else None
        invariant ok ==> escaping == ('\\' in source[old(p)..p])
        decreases ok, |source| - p
      {
        ghost var q := p;
        if buffer[p] != '"' && buffer[p] != '\\' && buffer[p] != '\0' {
          p := p + 1;
        } else if buffer[p] == '\\' {
          escaping := true;
          ok := SkipEscape();
        } else {
          ok := false;
        }
        if ok {
          SliceGrows(source, old(p), q, p);
          assert source[q] == '\\' || source[q..p] == [source[q]];
        }
      }
    }

    method DecodeString() returns (r: Option<Span>)
      requires Ready()
      modifies this, buffer
      ensures match ParseString(source, old(p))
              case None => r == None
              case Some((bytes, end)) =>
                && r.Some? && Ready() && p == end && fresh(r.value)
                && r.value.kind == StringText && r.value.bytes == bytes && r.value.start == old(p) + 1 && r.value.High() == end
                && spans == old(spans) + {r.value}
    {
      ghost var was := buffer[..];
      var ok := Consume('"');
      if !ok {
        return None;
      }
      var start := p;
      var escaping;
      ok, escaping := ScanString();
      if !ok {
        return None;
      }
      ghost var raw := source[start..p];
      StringIsEscaped(source, start);
      UnescapedLength(raw);
      buffer[p] := '\0';
      buffer[start - 1] := if escaping then 1 as char else '\0';
      var x := new Span(StringText, start, p, Unescaped(raw));
      assert buffer[..][start..p] == raw;
      p := p + 1;
      Keep(x, was, start - 1);
      r := Some(x);
    }

    method ScanNumber() returns (ok: bool)
      requires Ahead()
      modifies this`p
      ensures NumberEnd(source, old(p), 0) == if ok then Some(p) else None
      ensures ok ==> Ahead()
    {
      var state := 0;
      while state != 7
        invariant Ahead() && state <= 7
        invariant NumberEnd(source, old(p), 0) == NumberEnd(source, p, state)
        decreases |source| - p
      {
        if NumberChar(buffer[p]) {
          state := NextState(state, buffer[p]);
          if '1' <= buffer[p] <= '9' {
            SkipDigits(state);
          }
          p := p + 1;
        } else {
          return Accepting(state);
        }
      }
      ok := false;
    }

    /** Further digits are passed at once: they do not change the state. */
    method SkipDigits(ghost state: nat)
      requires Ahead() && p + 1 < |source| && state in {3, 4, 6, 7}
      modifies this`p
      ensures Ahead() && p + 1 < |source| && old(p) <= p
      ensures NumberEnd(source, old(p) + 1, state) == NumberEnd(source, p + 1, state)
    {
      while '0' <= buffer[p + 1] <= '9'
        invariant old(p) <= p && p + 1 < |source| && Ahead() && forall i | old(p) < i <= p :: Digit(source[i])
        decreases |source| - p
      {
        p := p + 1;
      }
      MoreDigits(source, old(p) + 1, p + 1, state);
    }

    method DecodeNumber() returns (r: Option<Span>)
      requires Ready()
      modifies this
      ensures match NumberEnd(source, old(p), 0)
              case None => r == None
              case Some(end) =>
                && r.Some? && Ready() && p == end && fresh(r.value)
                && r.value.kind == NumberText && r.value.bytes == source[old(p)..end]
                && spans == old(spans) + {r.value}
    {
      var start := p;
      var ok := ScanNumber();
      if !ok {
        return None;
      }
      var x := new Span(NumberText, start, p, source[start..p]);
      assert buffer[..][start..p] == source[start..p];
      Keep(x, buffer[..], start);
      r := Some(x);
    }

    /** The key of a member is unescaped at once, and only its place is kept. */
    method KeyOf(x: Span) returns (key: Span)
      requires Ready() && x in spans && x.kind == StringText
      modifies this`spans, x, buffer
      ensures Ready() && fresh(key) && key.kind == KeyText && key.bytes == x.bytes
      ensures spans == old(spans) - {x} + {key}
    {
      ghost var was := buffer[..];
      assert x.Ok(was);
      var bytes := Read(x, buffer);
      key := new Span(KeyText, x.start, x.end, x.bytes);
      spans := spans - {x};
      forall y | y in spans ensures Same(y, was, buffer[..]) && Apart(key, y) {
        assert Apart(x, y);
      }
      AllUntouched(spans, was, buffer[..], p);
      Joined(spans, buffer[..], p, key, p);
      spans := spans + {key};
    }

    /** What a decoder returns, against what the text says. */
    ghost predicate Decoded(r: Option<Value>, spec: Option<(Json, nat)>)
      reads this, buffer, spans
    {
      && r.Some? == spec.Some?
      && (r.Some? ==> Ready() && p == spec.value.1 && Shows(r.value, spec.value.0, spans))
    }

    ghost predicate DecodedMember(r: Option<(Span, Value)>, spec: Option<((string, Json), nat)>)
      reads this, buffer, spans
    {
      && r.Some? == spec.Some?
      && (r.Some? ==> Ready() && p == spec.value.1 && MemberShows(r.value, spec.value.0, spans))
    }

    method Word(word: string) returns (ok: bool)
      requires Ready() && 4 <= |word| <= 5 && '\0' !in word && buffer[p] == word[0]
      modifies this`p
      ensures Ready() && ok == TextAt(source, old(p), word) && p == if ok then old(p) + |word| else old(p)
    {
      ghost var there := source[p..];
      assert TextAt(source, p, word) ==> there[..|word|] == word;
      ok := buffer[p + 1] == word[1] && buffer[p + 2] == word[2] && buffer[p + 3] == word[3]
            && (|word| == 5 ==> buffer[p + 4] == word[4]);
      if ok {
        assert source[p..p + |word|] == word;
        p := p + |word|;
      }
    }

    method DecodeValue(depth: nat) returns (r: Option<Value>)
      requires Ready()
      modifies this, buffer
      ensures Decoded(r, ParseValue(source, old(p), depth)) && (r.Some? ==> old(spans) <= spans && fresh(spans - old(spans)))
      decreases |source| - p, 2
    {
      var ok;
      if buffer[p] == '[' {
        r := DecodeList(depth + 1);
      } else if buffer[p] == '{' {
        r := DecodeObject(depth + 1);
      } else if buffer[p] == '"' {
        var x := DecodeString();
        r := if x.Some? then Some(Value.String(x.value)) else None;
      } else if buffer[p] == 't' {
        ok := Word("true");
        r := if ok then Some(Value.True) else None;
      } else if buffer[p] == 'f' {
        ok := Word("false");
        r := if ok then Some(Value.False) else None;
      } else if buffer[p] == 'n' {
        ok := Word("null");
        r := if ok then Some(Value.Null) else None;
      } else {
        var x := DecodeNumber();
        r := if x.Some? then Some(Value.Number(x.value)) else None;
      }
    }

    /** After a part of a container: whether there is another. */
    method More(close: char) returns (r: Option<bool>)
      requires Ready() && close != '\0' && close != ','
      modifies this`p
      ensures r == if source[old(p)] == close then Some(false) else if source[old(p)] == ',' then Some(true) else None
      ensures r.Some? ==> Ready() && p == if r.value then Skip(source, old(p) + 1) else old(p) + 1
    {
      if buffer[p] == close {
        p := p + 1;
        return Some(false);
      }
      var ok := Consume(',');
      if !ok {
        return None;
      }
      WsSkip();
      r := Some(true);
    }

    method DecodeList(depth: nat) returns (r: Option<Value>)
      requires Ready() && buffer[p] == '['
      modifies this, buffer
      ensures Decoded(r, ParseList(source, old(p), depth)) && (r.Some? ==> old(spans) <= spans && fresh(spans - old(spans)))
      decreases |source| - p, 1
    {
      var ok := Consume('[');
      if !ok || depth > MAX_DEPTH {
        return None;
      }
      WsSkip();
      if buffer[p] == ']' {
        p := p + 1;
        return Some(Value.List([]));
      }
      r := DecodeItems(depth);
    }


    method NextItem(depth: nat, ghost items: seq<Json>, ghost whole: Option<(Json, nat)>) returns (v: Option<Value>, ghost json: Json)
      requires Ready() && ItemsGoOn(source, depth, p, items, whole)
      modifies this, buffer
      ensures v.None? ==> whole == None
      ensures v.Some? ==> Ready() && old(p) < p && old(spans) <= spans && fresh(spans - old(spans)) && Shows(v.value, json, spans)
      ensures v.Some? ==> AfterItem(source, depth, p, items + [json], whole)
      decreases |source| - p, 3
    {
      ghost var q := p;
      v := DecodeValue(depth + 1);
      if v.Some? {
        json := ParseValue(source, q, depth + 1).value.0;
        OneItem(source, depth, q, items, whole, json, p);
        WsSkip();
      } else {
        json := *;
        assert ItemsGoOn(source, depth, q, items, whole);
      }
    }

    method MoreItems(ghost depth: nat, ghost items: seq<Json>, ghost whole: Option<(Json, nat)>) returns (r: Option<bool>)
      requires Ready() && AfterItem(source, depth, p, items, whole)
      modifies this`p
      ensures r.None? ==> whole == None
      ensures r.Some? ==> Ready() && old(p) < p
      ensures r.Some? && !r.value ==> whole == Some((Json.List(items), p))
      ensures r.Some? && r.value ==> ItemsGoOn(source, depth, p, items, whole)
    {
      assert JsonRoundTrip.Look(0);
      r := More(']');
    }

    /** The loop of `decode_list`. */
    method DecodeItems(depth: nat) returns (r: Option<Value>)
      requires Ready()
      modifies this, buffer
      ensures Decoded(r, ParseItems(source, old(p), depth, [])) && (r.Some? ==> old(spans) <= spans && fresh(spans - old(spans)))
      decreases |source| - p, 4
    {
      ghost var from, whole := p, ParseItems(source, p, depth, []);
      var ret := new Children<Value>();
      ghost var items: seq<Json> := [];
      while true
        invariant Ready() && from <= p && old(spans) <= spans && fresh(spans - old(spans))
        invariant ret.Valid() && fresh(ret) && fresh(ret.l) && AllShow(ret.Contents(), items, spans)
        invariant ItemsGoOn(source, depth, p, items, whole)
        decreases |source| - p
      {
        ghost var known, json := spans, Json.Null;
        var v;
        v, json := NextItem(depth, items, whole);
        if v == None {
          return None;
        }
        OneMore(ret.Contents(), items, known, spans, v.value, json);
        ret.EmplaceBack(v.value);
        items := items + [json];
        var more := MoreItems(depth, items, whole);
        if more == None {
          return None;
        }
        if !more.value {
          return Some(Value.List(ret.Contents()));
        }
      }
    }

    method DecodeObject(depth: nat) returns (r: Option<Value>)
      requires Ready() && buffer[p] == '{'
      modifies this, buffer
      ensures Decoded(r, ParseObject(source, old(p), depth)) && (r.Some? ==> old(spans) <= spans && fresh(spans - old(spans)))
      decreases |source| - p, 1
    {
      var ok := Consume('{');
      if !ok || depth > MAX_DEPTH {
        return None;
      }
      WsSkip();
      if buffer[p] == '}' {
        p := p + 1;
        return Some(Value.Object([]));
      }
      r := DecodeMembers(depth);
    }


    method NextMember(depth: nat, ghost members: seq<(string, Json)>, ghost whole: Option<(Json, nat)>) returns (v: Option<(Span, Value)>, ghost member: (string, Json))
      requires Ready() && MembersGoOn(source, depth, p, members, whole)
      modifies this, buffer
      ensures v.None? ==> whole == None
      ensures v.Some? ==> Ready() && old(p) < p && old(spans) <= spans && fresh(spans - old(spans)) && MemberShows(v.value, member, spans)
      ensures v.Some? ==> AfterMember(source, depth, p, members + [member], whole)
      decreases |source| - p, 3
    {
      ghost var q := p;
      v := DecodeMember(depth);
      if v.Some? {
        member := ParseMember(source, q, depth).value.0;
        OneMember(source, depth, q, members, whole, member, p);
        WsSkip();
      } else {
        member := *;
        assert MembersGoOn(source, depth, q, members, whole);
      }
    }

    method MoreMembers(ghost depth: nat, ghost members: seq<(string, Json)>, ghost whole: Option<(Json, nat)>) returns (r: Option<bool>)
      requires Ready() && AfterMember(source, depth, p, members, whole)
      modifies this`p
      ensures r.None? ==> whole == None
      ensures r.Some? ==> Ready() && old(p) < p
      ensures r.Some? && !r.value ==> whole == Some((Json.Object(members), p))
      ensures r.Some? && r.value ==> MembersGoOn(source, depth, p, members, whole)
    {
      assert JsonRoundTrip.Look(0);
      r := More('}');
    }

    /** The loop of `decode_object`. */
    method DecodeMembers(depth: nat) returns (r: Option<Value>)
      requires Ready()
      modifies this, buffer
      ensures Decoded(r, ParseMembers(source, old(p), depth, [])) && (r.Some? ==> old(spans) <= spans && fresh(spans - old(spans)))
      decreases |source| - p, 4
    {
      ghost var from, whole := p, ParseMembers(source, p, depth, []);
      var ret := new Children<(Span, Value)>();
      ghost var members: seq<(string, Json)> := [];
      while true
        invariant Ready() && from <= p && old(spans) <= spans && fresh(spans - old(spans))
        invariant ret.Valid() && fresh(ret) && fresh(ret.l) && MembersShow(ret.Contents(), members, spans)
        invariant MembersGoOn(source, depth, p, members, whole)
        decreases |source| - p
      {
        ghost var known, member := spans, ("", Json.Null);
        var v;
        v, member := NextMember(depth, members, whole);
        if v == None {
          return None;
        }
        OneMoreMember(ret.Contents(), members, known, spans, v.value, member);
        ret.EmplaceBack(v.value);
        members := members + [member];
        var more := MoreMembers(depth, members, whole);
        if more == None {
          return None;
        }
        if !more.value {
          return Some(Value.Object(ret.Contents()));
        }
      }
    }

    method DecodeMember(depth: nat) returns (r: Option<(Span, Value)>)
      requires Ready()
      modifies this, buffer
      ensures DecodedMember(r, ParseMember(source, old(p), depth)) && (r.Some? ==> old(spans) <= spans && fresh(spans - old(spans)))
      decreases |source| - p, 2
    {
      KeyFirst(source, p, depth);
      var key := DecodeKey();
      if key == None {
        return None;
      }
      var v := DecodeValue(depth + 1);
      if v == None {
        return None;
      }
      r := Some((key.value, v.value));
    }

    /** The part of the loop of `decode_object` before the value. */
    method DecodeKey() returns (key: Option<Span>)
      requires Ready()
      modifies this, buffer
      ensures match ParseKey(source, old(p))
              case None => key == None
              case Some((bytes, end)) =>
                && key.Some? && Ready() && p == end && fresh(key.value) && key.value.kind == KeyText && key.value.bytes == bytes
                && spans == old(spans) + {key.value}
    {
      var t := DecodeString();
      if t == None {
        return None;
      }
      WsSkip();
      var ok := Consume(':');
      if !ok {
        return None;
      }
      var x := KeyOf(t.value);
      WsSkip();
      key := Some(x);
    }
  }
}
