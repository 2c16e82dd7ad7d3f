/** Message bodies: lengths are read exactly, and chunked decoding (section 4.1 of RFC 7230) inverts
    chunked encoding. */
module HttpBodies {
  import opened Options
  import opened Basics
  import opened HttpText
  import opened HttpMachine
  import opened HttpParser
  import opened HttpRequests
  import HttpSafety

  // ---------------------------------------------------------------- lengths

  function Hex(h: string): nat
    requires forall i | 0 <= i < |h| :: HexDigit(h[i])
  {
    if h == "" then 0
    else
      assert HexDigit(h[|h| - 1]);
      Hex(h[..|h| - 1]) * 16 + HexValue(h[|h| - 1])
  }

  /** The parser is about to read the value of a `Content-Length` header, the first one of the message. */
  predicate AwaitsLength(f: Fields) {
    f.stage == HeaderValueDiscardWs && f.headerState == ContentLength && !f.flags.contentLength
  }

  function LengthRead(f: Fields, n: U64, digits: nat): Fields {
    f.(stage := HeaderValue, headerState := ContentLengthNum, index := 0, contentLength := n,
       flags := f.flags.(contentLength := true), nread := f.nread + digits)
  }

  lemma FirstDigit<L(!new)>(push: Sink<L>, f: Fields, log: L, c: char)
    requires AwaitsLength(f) && Numeral(c) && f.nread < MAX_HEADER_SIZE
    ensures StepByte(push, Running(f, log), c) == Running(LengthRead(f, c as int - '0' as int, 1), push(log, Data(Value, [c])))
  {
  }

  lemma NextDigit<L(!new)>(push: Sink<L>, f: Fields, log: L, c: char)
    requires f.stage == HeaderValue && f.headerState == ContentLengthNum && Numeral(c) && f.nread < MAX_HEADER_SIZE
    ensures StepByte(push, Running(f, log), c)
            == if f.contentLength <= (ULLONG_MAX - 10) / 10 then
                 Running(f.(contentLength := f.contentLength * 10 + (c as int - '0' as int), nread := f.nread + 1),
                         push(log, Data(Value, [c])))
               else Halted(Error(INVALID_CONTENT_LENGTH))
  {
    StepValue(push, f, log, c);
  }

  /** What the parser makes of the digits of a length. */
  ghost predicate LengthIs<L>(f: Fields, d: string, m: Machine<L>, log': L)
    requires d != "" && forall i | 0 <= i < |d| :: Numeral(d[i])
  {
    if Decimal(d[..|d| - 1]) <= (ULLONG_MAX - 10) / 10 then
      Decimal(d) < ULLONG_MAX && m == Running(LengthRead(f, Decimal(d), |d|), log')
    else m == Halted(Error(INVALID_CONTENT_LENGTH))
  }

  /** A content length is accepted exactly when its digits but the last one are at most (2^64 - 11) / 10,
      and then it is the value of all its digits; it never wraps and is never the value for "no length". */
  lemma {:induction false} LengthExact<L(!new)>(push: Sink<L>, f: Fields, log: L, d: string) returns (log': L)
    requires AwaitsLength(f) && d != "" && (forall i | 0 <= i < |d| :: Numeral(d[i])) && f.nread + |d| <= MAX_HEADER_SIZE
    ensures LengthIs(f, d, Run(push, Running(f, log), d), log')
    decreases |d|
  {
    var init, last := d[..|d| - 1], d[|d| - 1];
    if init == "" {
      log' := push(log, Data(Value, [last]));
      OneDigit(push, f, log, d);
    } else {
      var log1 := LengthExact(push, f, log, init);
      log' := push(log1, Data(Value, [last]));
      var m := Run(push, Running(f, log), init);
      OneDigitMore(push, f, d, m, log1);
      RunLast(push, Running(f, log), d);
    }
  }

  lemma OneDigit<L(!new)>(push: Sink<L>, f: Fields, log: L, d: string)
    requires AwaitsLength(f) && |d| == 1 && Numeral(d[0]) && f.nread < MAX_HEADER_SIZE
    ensures Decimal(d[..0]) == 0 && Decimal(d) < 10
    ensures Run(push, Running(f, log), d) == Running(LengthRead(f, Decimal(d), 1), push(log, Data(Value, [d[0]])))
  {
    RunOne(push, Running(f, log), d);
    FirstDigit(push, f, log, d[0]);
  }

  lemma OneDigitMore<L(!new)>(push: Sink<L>, f: Fields, d: string, m: Machine<L>, log1: L)
    requires AwaitsLength(f) && |d| > 1 && (forall i | 0 <= i < |d| :: Numeral(d[i])) && f.nread + |d| <= MAX_HEADER_SIZE
    requires LengthIs(f, d[..|d| - 1], m, log1)
    ensures LengthIs(f, d, StepByte(push, m, d[|d| - 1]), push(log1, Data(Value, [d[|d| - 1]])))
  {
    var init, last := d[..|d| - 1], d[|d| - 1];
    DecimalGrows(init);
    if Decimal(init[..|init| - 1]) <= (ULLONG_MAX - 10) / 10 {
      NextDigit(push, LengthRead(f, Decimal(init), |init|), log1, last);
    } else {
      StaysHalted(push, m, last);
    }
  }

  lemma RunLast<L>(push: Sink<L>, m: Machine<L>, data: string)
    requires data != ""
    ensures Run(push, m, data) == StepByte(push, Run(push, m, data[..|data| - 1]), data[|data| - 1])
  {
  }

  lemma StaysHalted<L>(push: Sink<L>, m: Machine<L>, c: char)
    requires m.Halted?
    ensures StepByte(push, m, c) == m
  {
  }

  lemma DecimalGrows(d: string)
    requires d != "" && forall i | 0 <= i < |d| :: Numeral(d[i])
    ensures Decimal(d[..|d| - 1]) <= Decimal(d)
  {
  }

  lemma FirstSizeDigit<L(!new)>(push: Sink<L>, f: Fields, log: L, c: char)
    requires f.stage == ChunkSizeStart && f.flags.chunked && f.nread == 0 && HexDigit(c)
    ensures StepByte(push, Running(f, log), c) == Running(f.(stage := ChunkSize, contentLength := HexValue(c), nread := 1), log)
  {
  }

  lemma NextSizeDigit<L(!new)>(push: Sink<L>, f: Fields, log: L, c: char)
    requires f.stage == ChunkSize && f.flags.chunked && HexDigit(c) && f.nread < MAX_HEADER_SIZE
    ensures StepByte(push, Running(f, log), c)
            == if f.contentLength <= (ULLONG_MAX - 16) / 16 then
                 Running(f.(contentLength := f.contentLength * 16 + HexValue(c), nread := f.nread + 1), log)
               else Halted(Error(INVALID_CONTENT_LENGTH))
  {
  }

  /** The same for the size of a chunk. */
  lemma {:induction false} SizeExact<L(!new)>(push: Sink<L>, f: Fields, log: L, h: string)
    requires f.stage == ChunkSizeStart && f.flags.chunked && f.nread == 0
    requires h != "" && (forall i | 0 <= i < |h| :: HexDigit(h[i])) && |h| <= MAX_HEADER_SIZE
    ensures var m := Run(push, Running(f, log), h);
            if Hex(h[..|h| - 1]) <= (ULLONG_MAX - 16) / 16 then
              Hex(h) < ULLONG_MAX && m == Running(f.(stage := ChunkSize, contentLength := Hex(h), nread := |h|), log)
            else m == Halted(Error(INVALID_CONTENT_LENGTH))
    decreases |h|
  {
    var init, last := h[..|h| - 1], h[|h| - 1];
    assert HexDigit(last);
    if init == "" {
      FirstSizeDigit(push, f, log, last);
      RunOne(push, Running(f, log), h);
    } else {
      SizeExact(push, f, log, init);
      HexGrows(init);
      SizeGrows(push, f, log, h);
    }
  }

  lemma RunOne<L(!new)>(push: Sink<L>, m: Machine<L>, data: string)
    requires |data| == 1
    ensures Run(push, m, data) == StepByte(push, m, data[0])
  {
    assert Run(push, m, data[..0]) == m;
  }

  lemma SizeGrows<L(!new)>(push: Sink<L>, f: Fields, log: L, h: string)
    requires f.stage == ChunkSizeStart && f.flags.chunked && f.nread == 0
    requires |h| > 1 && (forall i | 0 <= i < |h| :: HexDigit(h[i])) && |h| <= MAX_HEADER_SIZE
    requires var init := h[..|h| - 1];
             && Hex(init[..|init| - 1]) <= Hex(init)
             && if Hex(init[..|init| - 1]) <= (ULLONG_MAX - 16) / 16 then
                  Hex(init) < ULLONG_MAX
                  && Run(push, Running(f, log), init)
                     == Running(f.(stage := ChunkSize, contentLength := Hex(init), nread := |init|), log)
                else Run(push, Running(f, log), init) == Halted(Error(INVALID_CONTENT_LENGTH))
    ensures var m := Run(push, Running(f, log), h);
            if Hex(h[..|h| - 1]) <= (ULLONG_MAX - 16) / 16 then
              Hex(h) < ULLONG_MAX && m == Running(f.(stage := ChunkSize, contentLength := Hex(h), nread := |h|), log)
            else m == Halted(Error(INVALID_CONTENT_LENGTH))
  {
    var init, last := h[..|h| - 1], h[|h| - 1];
    if Hex(init[..|init| - 1]) <= (ULLONG_MAX - 16) / 16 {
      NextSizeDigit(push, f.(stage := ChunkSize, contentLength := Hex(init), nread := |init|), log, last);
    }
  }

  lemma HexGrows(h: string)
    requires h != "" && forall i | 0 <= i < |h| :: HexDigit(h[i])
    ensures Hex(h[..|h| - 1]) <= Hex(h)
  {
  }

  // ---------------------------------------------------------------- bodies

  /** A whole body is one piece of data and completes the message, once. */
  lemma BodyDelivered<L(!new)>(push: Sink<L>, f: Fields, log: L, b: string)
    requires Joins(push) && f.stage == BodyIdentity && |b| == f.contentLength && Readable(f.contentLength)
    ensures Run(push, Running(f, log), b)
            == Running(f.(contentLength := 0, stage := StartReq), push(push(log, Data(Body, b)), MessageComplete))
  {
    var t := TraceOf(push, Running(f, log), b);
    var i := |b| - 1;
    BodyRun(push, b, t, 0, i, f, log, 0);
    LastByte(push, b, t, i, f.(contentLength := 1), log, 0);
    assert b[0..|b|] == b;
  }

  lemma ChunkDelivered<L(!new)>(push: Sink<L>, f: Fields, log: L, b: string)
    requires Joins(push) && f.stage == ChunkData && f.flags.chunked
    requires |b| == f.contentLength && Readable(f.contentLength)
    ensures Run(push, Running(f, log), b)
            == Running(f.(contentLength := 0, stage := ChunkDataAlmostDone), push(log, Data(Body, b)))
  {
    var t := TraceOf(push, Running(f, log), b);
    var i := |b| - 1;
    BodyRun(push, b, t, 0, i, f, log, 0);
    LastByte(push, b, t, i, f.(contentLength := 1), log, 0);
    assert b[0..|b|] == b;
  }

  // ---------------------------------------------------------------- chunks

  /** A chunk as it is sent: its size in hex digits of any case, with leading zeros or not, an optional
      extension, and its data. The last chunk has no data. */
  datatype Chunk = Chunk(size: string, ext: string, data: string)

  predicate WellFormedChunk(c: Chunk) {
    && c.size != "" && (forall i | 0 <= i < |c.size| :: HexDigit(c.size[i])) && Hex(c.size) == |c.data|
    && Hex(c.size[..|c.size| - 1]) <= (ULLONG_MAX - 16) / 16
    && (c.ext == "" || ((c.ext[0] == ';' || c.ext[0] == ' ') && CR !in c.ext))
    && |c.size| + |c.ext| + 2 <= MAX_HEADER_SIZE
  }

  function SizeLine(c: Chunk): string {
    c.size + (c.ext + "\r\n")
  }

  function ChunkText(c: Chunk): string {
    SizeLine(c) + (c.data + "\r\n")
  }

  lemma SizeStep<L(!new)>(push: Sink<L>, f: Fields, log: L, c: char)
    requires f.flags.chunked && f.nread < MAX_HEADER_SIZE
    ensures f.stage == ChunkSize && (c == ';' || c == ' ') ==>
              StepByte(push, Running(f, log), c) == Running(f.(stage := ChunkParameters, nread := f.nread + 1), log)
    ensures f.stage == ChunkParameters && c != CR ==>
              StepByte(push, Running(f, log), c) == Running(f.(nread := f.nread + 1), log)
    ensures (f.stage == ChunkSize || f.stage == ChunkParameters) && c == CR ==>
              StepByte(push, Running(f, log), c) == Running(f.(stage := ChunkSizeAlmostDone, nread := f.nread + 1), log)
  {
  }

  lemma SizeLineEnds<L(!new)>(push: Sink<L>, f: Fields, log: L)
    requires f.flags.chunked && f.nread < MAX_HEADER_SIZE && f.stage == ChunkSizeAlmostDone
    ensures StepByte(push, Running(f, log), LF)
            == Running(if f.contentLength == 0 then f.(nread := 0, flags := f.flags.(trailing := true), stage := HeaderFieldStart)
                       else f.(nread := 0, stage := ChunkData), log)
  {
  }

  lemma {:induction false} ExtensionSkipped<L(!new)>(push: Sink<L>, f: Fields, log: L, ext: string)
    requires f.stage == ChunkSize && f.flags.chunked && f.nread + |ext| <= MAX_HEADER_SIZE
    requires ext != "" && (ext[0] == ';' || ext[0] == ' ') && CR !in ext
    ensures Run(push, Running(f, log), ext) == Running(f.(stage := ChunkParameters, nread := f.nread + |ext|), log)
    decreases |ext|
  {
    var init, last := ext[..|ext| - 1], ext[|ext| - 1];
    if init == "" {
      RunOne(push, Running(f, log), ext);
      SizeStep(push, f, log, last);
    } else {
      ExtensionSkipped(push, f, log, init);
      SizeStep(push, f.(stage := ChunkParameters, nread := f.nread + |init|), log, last);
    }
  }

  lemma LineEnd<L(!new)>(push: Sink<L>, m: Machine<L>)
    ensures Run(push, m, "\r\n") == StepByte(push, StepByte(push, m, CR), LF)
  {
    assert "\r\n"[..1] == "\r" && "\r\n" == "\r" + "\n";
    RunOne(push, m, "\r");
  }

  /** Where the parser is after the line with a chunk's size. */
  function AfterSize(f: Fields, n: U64): Fields {
    if n == 0 then f.(contentLength := 0, nread := 0, flags := f.flags.(trailing := true), stage := HeaderFieldStart)
    else f.(contentLength := n, nread := 0, stage := ChunkData)
  }

  lemma SizeLineRead<L(!new)>(push: Sink<L>, f: Fields, log: L, c: Chunk)
    requires f.stage == ChunkSizeStart && f.flags.chunked && f.nread == 0 && WellFormedChunk(c)
    ensures |c.data| < ULLONG_MAX && Run(push, Running(f, log), SizeLine(c)) == Running(AfterSize(f, |c.data|), log)
  {
    SizeExact(push, f, log, c.size);
    RunSplit(push, Running(f, log), c.size, c.ext + "\r\n");
    ExtensionRead(push, f.(stage := ChunkSize, contentLength := |c.data|, nread := |c.size|), log, c.ext);
  }

  lemma ExtensionRead<L(!new)>(push: Sink<L>, f: Fields, log: L, ext: string)
    requires f.stage == ChunkSize && f.flags.chunked && f.nread + |ext| + 2 <= MAX_HEADER_SIZE && f.contentLength != ULLONG_MAX
    requires ext == "" || ((ext[0] == ';' || ext[0] == ' ') && CR !in ext)
    ensures Run(push, Running(f, log), ext + "\r\n") == Running(AfterSize(f, f.contentLength), log)
  {
    RunSplit(push, Running(f, log), ext, "\r\n");
    if ext == "" {
      LineRead(push, f, log);
    } else {
      ExtensionSkipped(push, f, log, ext);
      LineRead(push, f.(stage := ChunkParameters, nread := f.nread + |ext|), log);
    }
  }

  lemma LineRead<L(!new)>(push: Sink<L>, f: Fields, log: L)
    requires (f.stage == ChunkSize || f.stage == ChunkParameters) && f.flags.chunked && f.nread + 2 <= MAX_HEADER_SIZE
    requires f.contentLength != ULLONG_MAX
    ensures Run(push, Running(f, log), "\r\n") == Running(AfterSize(f, f.contentLength), log)
  {
    LineEnd(push, Running(f, log));
    SizeStep(push, f, log, CR);
    SizeLineEnds(push, f.(stage := ChunkSizeAlmostDone, nread := f.nread + 1), log);
  }

  lemma ChunkEnds<L(!new)>(push: Sink<L>, f: Fields, log: L)
    requires f.stage == ChunkDataAlmostDone && f.flags.chunked && f.contentLength == 0 && f.nread == 0
    ensures Run(push, Running(f, log), "\r\n") == Running(f.(stage := ChunkSizeStart), log)
  {
    LineEnd(push, Running(f, log));
    ChunkDataStep(push, f, log);
    ChunkDoneStep(push, f.(stage := ChunkDataDone), log);
  }

  lemma ChunkDataStep<L(!new)>(push: Sink<L>, f: Fields, log: L)
    requires f.stage == ChunkDataAlmostDone && f.flags.chunked && f.contentLength == 0
    ensures StepByte(push, Running(f, log), CR) == Running(f.(stage := ChunkDataDone), log)
  {
  }

  lemma ChunkDoneStep<L(!new)>(push: Sink<L>, f: Fields, log: L)
    requires f.stage == ChunkDataDone && f.flags.chunked && f.nread == 0
    ensures StepByte(push, Running(f, log), LF) == Running(f.(stage := ChunkSizeStart), log)
  {
  }

  /** One chunk hands over its data, and leaves the parser in front of the next one. */
  lemma ChunkRead<L(!new)>(push: Sink<L>, f: Fields, log: L, c: Chunk)
    requires Joins(push) && f.stage == ChunkSizeStart && f.flags.chunked && f.nread == 0
    requires WellFormedChunk(c) && c.data != ""
    ensures Run(push, Running(f, log), ChunkText(c)) == Running(f.(contentLength := 0), push(log, Data(Body, c.data)))
  {
    SizeLineRead(push, f, log, c);
    RunSplit(push, Running(f, log), SizeLine(c), c.data + "\r\n");
    var g := AfterSize(f, |c.data|);
    ChunkDelivered(push, g, log, c.data);
    RunSplit(push, Running(g, log), c.data, "\r\n");
    ChunkEnds(push, g.(contentLength := 0, stage := ChunkDataAlmostDone), push(log, Data(Body, c.data)));
  }

  function Text(chunks: seq<Chunk>): string {
    if chunks == [] then "" else Text(chunks[..|chunks| - 1]) + ChunkText(chunks[|chunks| - 1])
  }

  function AllData(chunks: seq<Chunk>): string {
    if chunks == [] then "" else AllData(chunks[..|chunks| - 1]) + chunks[|chunks| - 1].data
  }

  /** What the callbacks have seen after these chunks: all their data, as one piece. */
  function Delivered<L>(push: Sink<L>, log: L, chunks: seq<Chunk>): L {
    if chunks == [] then log else push(log, Data(Body, AllData(chunks)))
  }

  lemma {:induction false} ChunksRead<L(!new)>(push: Sink<L>, f: Fields, log: L, chunks: seq<Chunk>)
    requires Joins(push) && f.stage == ChunkSizeStart && f.flags.chunked && f.nread == 0
    requires forall c | c in chunks :: WellFormedChunk(c) && c.data != ""
    ensures Run(push, Running(f, log), Text(chunks))
            == Running(if chunks == [] then f else f.(contentLength := 0), Delivered(push, log, chunks))
    decreases |chunks|
  {
    if chunks != [] {
      var init, last := chunks[..|chunks| - 1], chunks[|chunks| - 1];
      ChunksRead(push, f, log, init);
      RunSplit(push, Running(f, log), Text(init), ChunkText(last));
      ChunkRead(push, if init == [] then f else f.(contentLength := 0), Delivered(push, log, init), last);
      if init == [] {
        assert AllData(chunks) == last.data;
      } else {
        Join(push, log, Body, AllData(init), last.data);
      }
    }
  }

  // ---------------------------------------------------------------- the trailer

  /** The parser is among the header lines after the last chunk. */
  predicate InTrailer(f: Fields) {
    f.flags.trailing && InLines(f.stage)
  }

  /** Among header lines. */
  predicate InLines(s: Stage) {
    s == HeaderField || s == HeaderValue || (InHeaders(s) && s != HeadersAlmostDone && s != HeadersDone)
  }

  /** Every byte of the text leaves the parser among these lines. */
  ghost predicate Through<L>(push: Sink<L>, m: Machine<L>, text: string) {
    forall k {:trigger Look(k)} | 0 <= k <= |text| ::
      Look(k) ==> Run(push, m, text[..k]).Running? && InTrailer(Run(push, m, text[..k]).f)
  }

  ghost predicate HeaderEvents(es: seq<Event>) {
    forall e | e in es :: e.Data? && (e.kind == Field || e.kind == Value)
  }

  lemma HeaderEventsJoin(a: seq<Event>, b: seq<Event>)
    requires HeaderEvents(a) && HeaderEvents(b)
    ensures HeaderEvents(a + b)
  {
  }

  function Fold<L>(push: Sink<L>, log: L, es: seq<Event>): L {
    if es == [] then log else push(Fold(push, log, es[..|es| - 1]), es[|es| - 1])
  }

  lemma {:induction false} FoldSplit<L>(push: Sink<L>, log: L, a: seq<Event>, b: seq<Event>)
    ensures Fold(push, log, a + b) == Fold(push, Fold(push, log, a), b)
    decreases |b|
  {
    if b == [] {
      assert a + b == a;
    } else {
      FoldSplit(push, log, a, b[..|b| - 1]);
      assert (a + b)[..|a + b| - 1] == a + b[..|b| - 1];
    }
  }

  lemma FoldOne<L>(push: Sink<L>, log: L, e: Event)
    ensures Fold(push, log, [e]) == push(log, e)
  {
    assert [e][..0] == [];
  }

  lemma FoldPushed<L>(push: Sink<L>, log: L, es: seq<Event>, e: Event)
    ensures Fold(push, log, es + [e]) == push(Fold(push, log, es), e)
  {
    assert (es + [e])[..|es + [e]| - 1] == es;
  }

  predicate HeaderKind(k: Option<Kind>) {
    k == None || k == Some(Field) || k == Some(Value)
  }

  /** What a case of the switch does in a trailer. */
  predicate TrailerAct(a: Act) {
    && a.note == None && a.f.flags.trailing && HeaderKind(a.mark)
    && (a.next == Done ==> HeaderKind(Live(a.f.stage)))
    && (a.next == Again ==> InTrailer(a.f) || a.f.stage == HeadersAlmostDone)
  }

  lemma TrailerPlain(f: Fields, c: char)
    requires InTrailer(f) && !Bulk(f.stage)
    ensures TrailerAct(Plain(f, c))
  {
    if f.stage == HeaderFieldStart {
      TrailerField(f, c);
    } else if f.stage == HeaderValueStart {
      TrailerValue(f, c);
    } else if f.stage == HeaderValueDiscardWs {
      TrailerDiscard(f, c);
    } else if f.stage == HeaderValueLws {
      TrailerLws(f, c);
    } else {
      TrailerLine(f, c);
    }
  }

  lemma TrailerField(f: Fields, c: char)
    requires f.flags.trailing
    ensures TrailerAct(FieldStart(f, c))
  {
  }

  lemma TrailerValue(f: Fields, c: char)
    requires f.flags.trailing
    ensures TrailerAct(ValueStart(f, c))
  {
    assert ValueStart(f, c).f.stage == HeaderValue && ValueStart(f, c).next != Again;
  }

  lemma TrailerDiscard(f: Fields, c: char)
    requires f.flags.trailing && f.stage == HeaderValueDiscardWs
    ensures TrailerAct(Headers(f, c))
  {
    if c == ' ' || c == '\t' || c == CR || c == LF {
      TrailerBlank(f, c);
    } else {
      assert Headers(f, c) == ValueStart(f, c);
      TrailerValue(f, c);
    }
  }

  lemma TrailerBlank(f: Fields, c: char)
    requires f.flags.trailing && f.stage == HeaderValueDiscardWs && (c == ' ' || c == '\t' || c == CR || c == LF)
    ensures TrailerAct(Headers(f, c))
  {
  }

  lemma TrailerLws(f: Fields, c: char)
    requires f.flags.trailing
    ensures TrailerAct(ValueLws(f, c))
  {
  }

  lemma TrailerLine(f: Fields, c: char)
    requires f.flags.trailing
    requires f.stage == HeaderValueDiscardWsAlmostDone || f.stage == HeaderValueDiscardLws || f.stage == HeaderAlmostDone
    ensures TrailerAct(Headers(f, c))
  {
  }

  /** The blank line at its end leads out of it. */
  lemma BlankLineLeaves<L>(push: Sink<L>, f: Fields, log: L, c: char)
    requires f.stage == HeadersAlmostDone && f.flags.trailing
    ensures var m := Exec(push, f, log, c); m.Halted? || m.f.stage == StartReq
  {
  }

  /** A case of the switch adds at most an empty piece of a header, apart from the byte itself. */
  lemma NotedInTrailer<L>(push: Sink<L>, log: L, a: Act) returns (es: seq<Event>)
    requires a.note == None && HeaderKind(a.mark)
    ensures HeaderEvents(es) && Noted(push, log, a) == Fold(push, log, es)
  {
    es := [];
    if a.mark.Some? && a.flush == a.mark {
      es := [Data(a.mark.value, "")];
      FoldOne(push, log, es[0]);
    }
  }

  lemma {:induction false} TrailerExec<L>(push: Sink<L>, f: Fields, log: L, c: char) returns (es: seq<Event>)
    requires InTrailer(f) && Exec(push, f, log, c).Running? && InTrailer(Exec(push, f, log, c).f)
    ensures HeaderEvents(es) && Exec(push, f, log, c).log == Fold(push, log, es)
    decreases Rank(f.stage)
  {
    es := [];
    if f.stage == HeaderField {
      if IsToken(c) {
        es := [Data(Field, [c])];
        FoldOne(push, log, es[0]);
      }
    } else if f.stage == HeaderValue {
      if c == LF {
        es := TrailerExec(push, f.(stage := HeaderAlmostDone), log, c);
      } else if c != CR {
        es := [Data(Value, [c])];
        FoldOne(push, log, es[0]);
      }
    } else {
      es := TrailerSwitch(push, f, log, c);
    }
  }

  lemma {:induction false} TrailerSwitch<L>(push: Sink<L>, f: Fields, log: L, c: char) returns (es: seq<Event>)
    requires InTrailer(f) && !Bulk(f.stage) && Exec(push, f, log, c).Running? && InTrailer(Exec(push, f, log, c).f)
    ensures HeaderEvents(es) && Exec(push, f, log, c).log == Fold(push, log, es)
    decreases Rank(f.stage), 0
  {
    var a := Plain(f, c);
    TrailerPlain(f, c);
    es := NotedInTrailer(push, log, a);
    var log' := Noted(push, log, a);
    if a.next == Again {
      AgainSinks(f, c);
      ExecAgain(push, f, log, c);
      if a.f.stage == HeadersAlmostDone {
        BlankLineLeaves(push, a.f, log', c);
      } else {
        var more := TrailerExec(push, a.f, log', c);
        FoldSplit(push, log, es, more);
        HeaderEventsJoin(es, more);
        es := es + more;
      }
    } else {
      ExecDone(push, f, log, c);
      if Live(a.f.stage).Some? {
        var last := [Data(Live(a.f.stage).value, [c])];
        FoldOne(push, log', last[0]);
        FoldSplit(push, log, es, last);
        HeaderEventsJoin(es, last);
        es := es + last;
      }
    }
  }

  lemma ExecAgain<L>(push: Sink<L>, f: Fields, log: L, c: char)
    requires !Bulk(f.stage) && Plain(f, c).next == Again
    ensures Exec(push, f, log, c) == Exec(push, Plain(f, c).f, Noted(push, log, Plain(f, c)), c)
  {
  }

  lemma ExecDone<L>(push: Sink<L>, f: Fields, log: L, c: char)
    requires !Bulk(f.stage) && Plain(f, c).next != Again && Exec(push, f, log, c).Running?
    ensures var a := Plain(f, c);
            a.next == Done && Exec(push, f, log, c) == Running(a.f, Taken(push, Noted(push, log, a), a.f.stage, c))
  {
  }

  lemma TrailerByte<L>(push: Sink<L>, m: Machine<L>, c: char) returns (es: seq<Event>)
    requires m.Running? && InTrailer(m.f) && StepByte(push, m, c).Running? && InTrailer(StepByte(push, m, c).f)
    ensures HeaderEvents(es) && StepByte(push, m, c).log == Fold(push, m.log, es)
  {
    es := TrailerExec(push, m.f.(nread := m.f.nread + 1), m.log, c);
  }

  /** Whatever the trailer holds, the callbacks see only names and values of headers in it. */
  lemma {:induction false} TrailerSeen<L>(push: Sink<L>, m: Machine<L>, text: string) returns (es: seq<Event>)
    requires m.Running? && Through(push, m, text)
    ensures Run(push, m, text).Running? && HeaderEvents(es) && Run(push, m, text).log == Fold(push, m.log, es)
    ensures text == "" ==> es == []
    decreases |text|
  {
    assert text[..|text|] == text && Look(|text|);
    if text == "" {
      es := [];
    } else {
      var init, c := text[..|text| - 1], text[|text| - 1];
      assert Look(|init|);
      forall k | 0 <= k <= |init| ensures Run(push, m, init[..k]).Running? && InTrailer(Run(push, m, init[..k]).f) {
        assert Look(k) && init[..k] == text[..k];
      }
      es := TrailerSeen(push, m, init);
      assert init[..|init|] == init;
      var last := TrailerByte(push, Run(push, m, init), c);
      FoldSplit(push, m.log, es, last);
      es := es + last;
    }
  }

  /** In front of a header line: the first one, or one after a value, or after a value that is blank. What
      comes next decides whether that value goes on. */
  predicate AtLine(f: Fields) {
    f.stage == HeaderFieldStart || f.stage == HeaderValueLws || f.stage == HeaderValueDiscardLws
  }

  /** A blank value is handed over when its line does not go on. */
  function Flushed<L>(push: Sink<L>, f: Fields, log: L): L {
    if f.stage == HeaderValueDiscardLws then push(log, Data(Value, "")) else log
  }

  /** What a value that has ended in this state says. */
  function Settle(flags: Flags, h: HeaderState): Flags {
    match h
    case ConnectionKeepAlive => flags.(keepAlive := true)
    case ConnectionClose => flags.(close := true)
    case TransferEncodingChunked => flags.(chunked := true)
    case _ => flags
  }

  /** The flags when the next line begins. */
  function Settled(f: Fields): Flags {
    if f.stage == HeaderValueLws then Settle(f.flags, f.headerState) else f.flags
  }

  function LineBegun(f: Fields): Fields {
    f.(stage := HeaderFieldStart, flags := Settled(f))
  }

  /** A byte other than a blank does not carry the last line on. */
  lemma AtNextLine<L>(push: Sink<L>, f: Fields, log: L, c: char)
    requires AtLine(f) && c != ' ' && c != '\t'
    ensures Exec(push, f, log, c) == Exec(push, LineBegun(f), Flushed(push, f, log), c)
  {
    if f.stage == HeaderValueLws {
      AfterLws(push, f, log, c);
    } else if f.stage == HeaderValueDiscardLws {
      AfterBlank(push, f, log, c);
    }
  }

  lemma AfterLws<L>(push: Sink<L>, f: Fields, log: L, c: char)
    requires f.stage == HeaderValueLws && c != ' ' && c != '\t'
    ensures Exec(push, f, log, c) == Exec(push, LineBegun(f), log, c)
  {
    assert ValueLws(f, c).f == LineBegun(f);
    ExecAgain(push, f, log, c);
  }

  lemma AfterBlank<L>(push: Sink<L>, f: Fields, log: L, c: char)
    requires f.stage == HeaderValueDiscardLws && c != ' ' && c != '\t'
    ensures Exec(push, f, log, c) == Exec(push, LineBegun(f), Flushed(push, f, log), c)
  {
    ExecAgain(push, f, log, c);
  }

  /** The blank line after the trailer completes the message. */
  lemma TrailerEnds<L(!new)>(push: Sink<L>, f: Fields, log: L) returns (g: Fields)
    requires AtLine(f) && f.flags.trailing && f.nread + 2 <= MAX_HEADER_SIZE
    ensures g == LineBegun(f).(stage := StartReq, nread := f.nread + 2)
    ensures Run(push, Running(f, log), "\r\n") == Running(g, push(Flushed(push, f, log), MessageComplete))
  {
    LineEnd(push, Running(f, log));
    var h := BlankLine(push, f, log);
    LastLineFeed(push, h, Flushed(push, f, log));
    g := h.(stage := StartReq, nread := h.nread + 1);
  }

  lemma BlankLine<L(!new)>(push: Sink<L>, f: Fields, log: L) returns (g: Fields)
    requires AtLine(f) && f.nread < MAX_HEADER_SIZE
    ensures g == LineBegun(f).(stage := HeadersAlmostDone, nread := f.nread + 1)
    ensures StepByte(push, Running(f, log), CR) == Running(g, Flushed(push, f, log))
  {
    g := LineBegun(f).(stage := HeadersAlmostDone, nread := f.nread + 1);
    HttpSafety.CountedStep(push, f, f.(nread := f.nread + 1), log, CR);
    AtNextLine(push, f.(nread := f.nread + 1), log, CR);
    BlankLineBegins(push, LineBegun(f.(nread := f.nread + 1)), Flushed(push, f, log));
  }

  lemma BlankLineBegins<L(!new)>(push: Sink<L>, f: Fields, log: L)
    requires f.stage == HeaderFieldStart
    ensures Exec(push, f, log, CR) == Running(f.(stage := HeadersAlmostDone), log)
  {
  }

  lemma LastLineFeed<L(!new)>(push: Sink<L>, f: Fields, log: L)
    requires f.stage == HeadersAlmostDone && f.flags.trailing && f.nread < MAX_HEADER_SIZE
    ensures StepByte(push, Running(f, log), LF) == Running(f.(stage := StartReq, nread := f.nread + 1), push(log, MessageComplete))
  {
  }

  lemma TrailerRead<L(!new)>(push: Sink<L>, m: Machine<L>, trailer: string) returns (g: Fields, es: seq<Event>)
    requires m.Running? && m.f.stage == HeaderFieldStart && Through(push, m, trailer) && Run(push, m, trailer).Running?
    requires AtLine(Run(push, m, trailer).f) && Run(push, m, trailer).f.nread + 2 <= MAX_HEADER_SIZE
    ensures HeaderEvents(es) && g.stage == StartReq && (trailer == "" ==> es == [])
    ensures Run(push, m, trailer + "\r\n") == Running(g, push(Fold(push, m.log, es), MessageComplete))
  {
    assert trailer[..|trailer|] == trailer;
    es := TrailerSeen(push, m, trailer);
    RunSplit(push, m, trailer, "\r\n");
    var after := Run(push, m, trailer);
    assert Look(|trailer|);
    g := TrailerEnds(push, after.f, after.log);
    if after.f.stage == HeaderValueDiscardLws {
      FoldPushed(push, m.log, es, Data(Value, ""));
      es := es + [Data(Value, "")];
    }
  }

  lemma ChunksAndLast<L(!new)>(push: Sink<L>, f: Fields, log: L, chunks: seq<Chunk>, last: Chunk, rest: string)
    requires Joins(push) && f.stage == ChunkSizeStart && f.flags.chunked && f.nread == 0
    requires forall c | c in chunks :: WellFormedChunk(c) && c.data != ""
    requires WellFormedChunk(last) && last.data == ""
    ensures Run(push, Running(f, log), Text(chunks) + (SizeLine(last) + rest))
            == Run(push, Running(AfterSize(f, 0), Delivered(push, log, chunks)), rest)
  {
    ChunksRead(push, f, log, chunks);
    RunSplit(push, Running(f, log), Text(chunks), SizeLine(last) + rest);
    var f1, log1 := if chunks == [] then f else f.(contentLength := 0), Delivered(push, log, chunks);
    SizeLineRead(push, f1, log1, last);
    RunSplit(push, Running(f1, log1), SizeLine(last), rest);
  }

  /** A chunked body: for every list of chunks with data, a last chunk without, and any lines of a trailer
      that the parser accepts, the callbacks see all the data in order as one piece, then names and values
      of headers only, and then the end of the message, once. */
  lemma ChunkedBodyDecoded<L(!new)>(push: Sink<L>, f: Fields, log: L, chunks: seq<Chunk>, last: Chunk, trailer: string)
    returns (g: Fields, es: seq<Event>)
    requires Joins(push) && f.stage == ChunkSizeStart && f.flags.chunked && f.nread == 0
    requires forall c | c in chunks :: WellFormedChunk(c) && c.data != ""
    requires WellFormedChunk(last) && last.data == ""
    requires var m := Running(AfterSize(f, 0), Delivered(push, log, chunks));
             && Through(push, m, trailer) && Run(push, m, trailer).Running?
             && AtLine(Run(push, m, trailer).f) && Run(push, m, trailer).f.nread + 2 <= MAX_HEADER_SIZE
    ensures HeaderEvents(es) && g.stage == StartReq && (trailer == "" ==> es == [])
    ensures Run(push, Running(f, log), Text(chunks) + (SizeLine(last) + (trailer + "\r\n")))
            == Running(g, push(Fold(push, Delivered(push, log, chunks), es), MessageComplete))
  {
    ChunksAndLast(push, f, log, chunks, last, trailer + "\r\n");
    g, es := TrailerRead(push, Running(AfterSize(f, 0), Delivered(push, log, chunks)), trailer);
  }

  /** Without a trailer nothing is required of the parser's states. */
  lemma NoTrailer<L>(push: Sink<L>, f: Fields, log: L)
    ensures Through(push, Running(AfterSize(f, 0), log), "")
  {
    var m := Running(AfterSize(f, 0), log);
    assert ""[..0] == "" && Run(push, m, "") == m;
  }
}
