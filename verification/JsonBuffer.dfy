/** The destructive reader (json.h): it decodes strings inside the text it was given, and unescapes each of them only when it is first asked for. */
module JsonBuffer {
  import opened Options
  import opened Basics
  import opened JsonText

  datatype Kind = NumberText | KeyText | StringText

  /** A part of the buffer: the characters of a string, which may still be escaped, or of a key or a number. */
  class Span {
    const kind: Kind
    const start: nat
    /** Where it ended when it was read. */
    const limit: nat
    /** What it stands for. */
    ghost const bytes: string
    var end: nat

    constructor (kind: Kind, start: nat, limit: nat, ghost bytes: string)
      ensures this.kind == kind && this.start == start && this.limit == end == limit && this.bytes == bytes
    {
      this.kind, this.start, this.limit, this.end, this.bytes := kind, start, limit, limit, bytes;
    }

    /** The part it owns. A string owns its quotes too: the first became a flag, the second a NUL. */
    ghost function Low(): int {
      if kind == StringText then start - 1 else start
    }

    ghost function High(): int {
      if kind == StringText then limit + 1 else limit
    }

    ghost predicate Ok(t: string)
      reads this
    {
      && 0 <= Low() && start <= end <= limit && High() <= |t|
      && if kind == StringText && t[start - 1] != '\0' then
           end == limit && WellEscaped(t[start..end]) && '\\' in t[start..end] && Unescaped(t[start..end]) == bytes
         else
           t[start..end] == bytes
    }
  }

  ghost predicate Apart(x: Span, y: Span) {
    x.High() <= y.Low() || y.High() <= x.Low()
  }

  /** Every part that has been read stands for what it should, before `p`, and no two of them overlap. */
  ghost predicate Kept(spans: set<Span>, t: string, p: nat)
    reads spans
  {
    && (forall x {:trigger x.Ok(t)} | x in spans :: x.Ok(t) && x.High() <= p)
    && (forall x, y {:trigger Apart(x, y)} | x in spans && y in spans && x != y :: Apart(x, y))
  }

  lemma Untouched(x: Span, t: string, t': string)
    requires x.Ok(t) && |t'| == |t| && Same(x, t, t')
    ensures x.Ok(t')
  {
    assert t'[x.start..x.end] == t[x.start..x.end];
  }

  /** Nothing that the span owns has changed. */
  ghost predicate Same(x: Span, t: string, t': string) {
    forall i | 0 <= i < |t| == |t'| && x.Low() <= i < x.High() :: t'[i] == t[i]
  }

  lemma AllUntouched(spans: set<Span>, t: string, t': string, p: nat)
    requires Kept(spans, t, p) && |t'| == |t| && forall x | x in spans :: Same(x, t, t')
    ensures Kept(spans, t', p)
  {
    forall x | x in spans ensures x.Ok(t') && x.High() <= p {
      assert x.Ok(t);
      Untouched(x, t, t');
    }
  }

  lemma Joined(spans: set<Span>, t: string, p: nat, x: Span, q: nat)
    requires Kept(spans, t, p) && x.Ok(t) && p <= q && x.High() <= q
    requires forall y | y in spans :: Apart(x, y)
    ensures Kept(spans + {x}, t, q)
  {
    forall y | y in spans + {x} ensures y.Ok(t) && y.High() <= q && (y != x ==> Apart(x, y)) {
    }
    forall y, z | y in spans + {x} && z in spans + {x} && y != z ensures Apart(y, z) {
      assert Apart(x, y) || y == x;
      assert Apart(x, z) || z == x;
    }
  }

  // ---------------------------------------------------------------- unescaping

  /** One code unit, written as UTF-8. */
  method PutCode(data: array<char>, tail: nat, code: nat) returns (end: nat)
    requires code < 0x1_0000 && tail + 3 <= data.Length
    modifies data
    ensures end == tail + |Utf8(code)| && data[tail..end] == Utf8(code)
    ensures forall i | 0 <= i < data.Length && !(tail <= i < end) :: data[i] == old(data[i])
  {
    if code >= 0x800 {
      data[tail] := (0xE0 + code / 4096) as char;
      data[tail + 1] := (0x80 + code / 64 % 64) as char;
      data[tail + 2] := (0x80 + code % 64) as char;
      end := tail + 3;
    } else if code >= 0x80 {
      data[tail] := (0xC0 + code / 64) as char;
      data[tail + 1] := (0x80 + code % 64) as char;
      end := tail + 2;
    } else {
      data[tail] := code as char;
      end := tail + 1;
    }
  }

  /** What is decoded already, in front of what is still to be decoded. */
  ghost predicate Halfway(t: string, was: string, start: nat, tail: nat, head: nat, end: nat) {
    && start <= tail <= head <= end < |t| == |was|
    && t[head..end] == was[head..end] && WellEscaped(was[head..end]) && WellEscaped(was[start..end])
    && t[start..tail] + Unescaped(was[head..end]) == Unescaped(was[start..end])
  }

  lemma HalfwayOn(t: string, t': string, was: string, start: nat, tail: nat, head: nat, end: nat, tail': nat, head': nat)
    requires Halfway(t, was, start, tail, head, end) && |t'| == |t|
    requires tail <= tail' <= head' && head <= head' <= end
    requires forall i | 0 <= i < |t| && !(tail <= i < tail') :: t'[i] == t[i]
    requires WellEscaped(was[head'..end])
    requires Unescaped(was[head..end]) == t'[tail..tail'] + Unescaped(was[head'..end])
    ensures Halfway(t', was, start, tail', head', end)
  {
    SliceKept(t, t', was, head, head', end);
    SlicesJoin(t, t', start, tail, tail');
    JoinedInThree(t[start..tail], t'[tail..tail'], Unescaped(was[head'..end]));
  }

  lemma SliceKept(t: string, t': string, was: string, head: nat, head': nat, end: nat)
    requires head <= head' <= end <= |t| == |t'| == |was| && t[head..end] == was[head..end]
    requires forall i | head' <= i < end :: t'[i] == t[i]
    ensures t'[head'..end] == was[head'..end]
  {
    assert t'[head'..end] == t[head'..end] == t[head..end][head' - head..];
    assert was[head'..end] == was[head..end][head' - head..];
  }

  lemma SlicesJoin(t: string, t': string, start: nat, tail: nat, tail': nat)
    requires start <= tail <= tail' <= |t| == |t'| && forall i | start <= i < tail :: t'[i] == t[i]
    ensures t'[start..tail'] == t[start..tail] + t'[tail..tail']
  {
    assert t'[start..tail] == t[start..tail];
  }

  lemma JoinedInThree(a: string, b: string, c: string)
    ensures a + (b + c) == (a + b) + c
  {
  }

  /** The first piece of an escaped text: how much of it is read, and what is written for it. */
  function Step(raw: string): (r: (nat, string))
    requires raw != "" && WellEscaped(raw)
    ensures 0 < |r.1| <= r.0 <= |raw|
    ensures WellEscaped(raw[r.0..]) && Unescaped(raw) == r.1 + Unescaped(raw[r.0..])
  {
    if raw[0] != '\\' then (1, [raw[0]])
    else if Unicode(raw) then (6, Utf8(Code(raw)))
    else (2, [SimpleChar(raw[1])])
  }

  method ReadCode(data: array<char>, head: nat, ghost raw: string) returns (code: nat)
    requires Unicode(raw) && head + 5 <= data.Length && forall i | 1 <= i < 6 :: raw[i] == data[head + i - 1]
    ensures code == Code(raw)
  {
    assert data[head + 1] == raw[2] && data[head + 2] == raw[3] && data[head + 3] == raw[4] && data[head + 4] == raw[5];
    code := HexValue(data[head + 1]) * 4096 + HexValue(data[head + 2]) * 256
            + HexValue(data[head + 3]) * 16 + HexValue(data[head + 4]);
  }

  method UnescapeOne(data: array<char>, head: nat, tail: nat, ghost end: nat) returns (head': nat, tail': nat)
    requires tail <= head < end < data.Length && WellEscaped(data[head..end])
    modifies data
    ensures head' == head + Step(old(data[head..end])).0
    ensures tail' == tail + |Step(old(data[head..end])).1|
    ensures data[tail..tail'] == Step(old(data[head..end])).1
    ensures forall i | 0 <= i < data.Length && !(tail <= i < tail') :: data[i] == old(data[i])
  {
    ghost var raw := data[head..end];
    assert raw[0] == data[head];
    if data[head] == '\\' {
      head', tail' := UnescapeEscape(data, head, tail, end);
    } else {
      data[tail] := data[head];
      head', tail' := head + 1, tail + 1;
    }
  }

  method UnescapeEscape(data: array<char>, head: nat, tail: nat, ghost end: nat) returns (head': nat, tail': nat)
    requires tail <= head < end < data.Length && WellEscaped(data[head..end]) && data[head] == '\\'
    modifies data
    ensures head' == head + Step(old(data[head..end])).0
    ensures tail' == tail + |Step(old(data[head..end])).1|
    ensures data[tail..tail'] == Step(old(data[head..end])).1
    ensures forall i | 0 <= i < data.Length && !(tail <= i < tail') :: data[i] == old(data[i])
  {
    ghost var raw := data[head..end];
    assert forall i | 0 <= i < end - head :: raw[i] == data[head + i];
    head' := head + 1;
    if data[head'] == 'u' {
      var code := ReadCode(data, head', raw);
      tail' := PutCode(data, tail, code);
      head' := head' + 4;
    } else {
      data[tail] := SimpleChar(data[head']);
      tail' := tail + 1;
    }
    head' := head' + 1;
  }

  /** `unescape`, between two places of a buffer. The writer never passes the reader. */
  method UnescapeBetween(data: array<char>, start: nat, end: nat) returns (tail: nat)
    requires 0 < start <= end < data.Length && WellEscaped(data[start..end])
    modifies data
    ensures start <= tail <= end && data[start..tail] == Unescaped(old(data[start..end]))
    ensures data[start - 1] == '\0' && data[tail] == '\0'
    ensures forall i | 0 <= i < data.Length && !(start - 1 <= i <= end) :: data[i] == old(data[i])
  {
    var head := start;
    tail := start;
    ghost var was := data[..];
    assert was[start..end] == data[start..end];
    while head != end
      invariant Halfway(data[..], was, start, tail, head, end)
      invariant forall i | 0 <= i < data.Length && !(start <= i < end) :: data[i] == was[i]
      decreases end - head
    {
      ghost var t, tail0, head0 := data[..], tail, head;
      assert data[head..end] == t[head..end];
      ghost var rest := was[head..end];
      head, tail := UnescapeOne(data, head, tail, end);
      assert was[head..end] == rest[head - head0..];
      assert data[..][tail0..tail] == data[tail0..tail];
      HalfwayOn(t, data[..], was, start, tail0, head0, end, tail, head);
    }
    assert data[start..tail] == data[..][start..tail] == Unescaped(was[start..end]);
    ghost var done := data[start..tail];
    data[tail] := '\0';
    data[start - 1] := '\0';
    assert data[start..tail] == done;
  }

  /** `s`: the characters of a string, unescaped in place the first time. */
  method Read(x: Span, data: array<char>) returns (bytes: string)
    requires x.kind == StringText && x.Ok(data[..])
    modifies x, data
    ensures bytes == x.bytes && x.Ok(data[..]) && data[x.start - 1] == '\0'
    ensures bytes == data[x.start..x.end] && (old(data[x.start - 1]) != '\0' ==> data[x.end] == '\0')
    ensures forall i | 0 <= i < data.Length && !(x.Low() <= i < x.High()) :: data[i] == old(data[i])
    ensures old(data[x.start - 1]) == '\0' ==> x.end == old(x.end) && data[..] == old(data[..])
  {
    assert data[..][x.start..x.end] == data[x.start..x.end];
    if data[x.start - 1] != '\0' {
      x.end := UnescapeBetween(data, x.start, x.end);
    }
    bytes := data[x.start..x.end];
    assert data[..][x.start..x.end] == bytes;
  }

  /** A copy that is made before the first reading shares the buffer but not the end that the reading moves:
      it agrees with the original exactly when the string was written without an escape. */
  method ReadCopy(x: Span, data: array<char>) returns (original: string, copy: string)
    requires x.kind == StringText && x.Ok(data[..])
    modifies x, data
    ensures original == x.bytes
    ensures copy == original <==> old(data[x.start - 1]) == '\0'
    ensures |original| <= |copy| == old(x.end) - x.start && copy[..|original|] == original
    ensures copy != original ==> copy[|original|] == '\0'
  {
    var y := new Span(StringText, x.start, x.end, x.bytes);
    UnescapedLength(if data[x.start - 1] != '\0' then data[..][x.start..x.end] else "");
    original := Read(x, data);
    copy := data[y.start..y.end];
    assert x.end <= y.end && |original| == x.end - x.start;
    assert copy[..x.end - x.start] == data[x.start..x.end];
    assert |original| < |copy| ==> copy[|original|] == data[x.end];
  }

  /** It happens with a single escape: the copy of `\n` ends in a NUL. */
  method CopyOfEscape() returns (original: string, copy: string)
    ensures original == "\n" && copy == "\n\0"
  {
    var data := new char[4](i => if i == 0 then 1 as char else if i == 1 then '\\' else if i == 2 then 'n' else '\0');
    assert data[..][1..3] == "\\n";
    assert "\\n"[2..] == "" && Unescaped("\\n") == "\n";
    var x := new Span(StringText, 1, 3, "\n");
    original, copy := ReadCopy(x, data);
  }
}
