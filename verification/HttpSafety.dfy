/** The assertions of `http_parser_execute`: which of them hold in every run, and when the other fails. */
module HttpSafety {
  import opened Options
  import opened HttpMethods
  import opened HttpMachine

  predicate InChunk(s: Stage) {
    || s == ChunkSizeStart || s == ChunkSize || s == ChunkParameters || s == ChunkSizeAlmostDone || s == ChunkData
    || s == ChunkDataAlmostDone || s == ChunkDataDone
  }

  predicate InSize(s: Stage) {
    s == ChunkSize || s == ChunkParameters || s == ChunkSizeAlmostDone
  }

  predicate InValue(s: Stage) {
    s == HeaderValueStart || s == HeaderValue || s == HeaderAlmostDone || s == HeaderValueLws
  }

  predicate NameState(h: HeaderState) {
    || h == General || h == C || h == CO || h == CON || h == MatchingConnection || h == MatchingProxyConnection
    || h == MatchingContentLength || h == MatchingTransferEncoding || h == MatchingUpgrade || h == Connection
    || h == ContentLength || h == TransferEncoding || h == Upgrade
  }

  /** What every assertion of the source needs, in front of a byte that has been counted `counted` times. */
  predicate Sound(f: Fields, counted: nat) {
    && (f.stage == ChunkSizeStart ==> f.nread == counted)
    && (InChunk(f.stage) ==> f.flags.chunked)
    && (f.stage == BodyIdentity || f.stage == ChunkData ==> Readable(f.contentLength))
    && (f.stage == ChunkDataAlmostDone ==> f.contentLength == 0)
    && (InSize(f.stage) ==> f.contentLength != ULLONG_MAX)
    && (f.stage == HeaderField ==> NameState(f.headerState))
    && (InValue(f.stage) ==> f.headerState != TransferEncoding)
  }

  /** No header value is being compared as one of a `Connection` header before its first byte is known. */
  predicate Decided(f: Fields) {
    InValue(f.stage) ==> f.headerState != Connection
  }

  // ---------------------------------------------------------------- one case of the switch

  /** A state for which the assertions say nothing. */
  predicate Early(s: Stage) {
    !InChunk(s) && !InValue(s) && s != BodyIdentity && s != HeaderField
  }

  ghost predicate EarlyAct(a: Act) {
    Early(a.f.stage) && a.next != Leave(Aborted)
  }

  lemma ParsedEarly(s: Stage, c: char)
    requires Early(s)
    ensures Early(ParseUrlChar(s, c))
  {
    if s == ReqServerStart || s == ReqServer || s == ReqServerWithAt {
      ServerEarly(c);
    } else {
      PathEarly(s, c);
    }
  }

  lemma PathEarly(s: Stage, c: char)
    requires s != ReqServerStart && s != ReqServer && s != ReqServerWithAt
    ensures Early(ParseUrlChar(s, c))
  {
  }

  lemma ServerEarly(c: char)
    ensures Early(ServerChar(c))
  {
  }

  lemma UrlEarly(f: Fields, c: char)
    requires Early(f.stage)
    ensures EarlyAct(UrlByte(f, c))
  {
    ParsedEarly(f.stage, c);
  }

  lemma FirstUrlEarly(f: Fields, c: char)
    requires Early(f.stage)
    ensures EarlyAct(FirstUrlByte(f, c))
  {
    ParsedEarly(if f.method_ == CONNECT then ReqServerStart else f.stage, c);
  }

  lemma BeginEarly(f: Fields, c: char)
    requires Early(f.stage)
    ensures EarlyAct(Begin(f, c))
  {
  }

  lemma MethodEarly(f: Fields, c: char)
    requires Early(f.stage)
    ensures EarlyAct(MethodByte(f, c))
  {
    var a := MethodByte(f, c);
    assert a.f.stage == f.stage || a.f.stage == ReqSpacesBeforeUrl;
  }

  predicate InVersion(s: Stage) {
    || s == ReqHttpStart || s == ReqHttpH || s == ReqHttpHT || s == ReqHttpHTT || s == ReqHttpI || s == ReqHttpIC || s == ReqHttpHTTP
    || s == ReqHttpMajor || s == ReqHttpDot || s == ReqHttpMinor || s == ReqHttpEnd || s == ReqLineAlmostDone || s == Dead
  }

  lemma VersionEarly(f: Fields, c: char)
    requires InVersion(f.stage)
    ensures EarlyAct(RequestLine(f, c))
  {
    if InNumber(f.stage) {
      NumberEarly(f, c);
    } else {
      LettersEarly(f, c);
    }
  }

  /** From the version's number on. */
  predicate InNumber(s: Stage) {
    s == ReqHttpMajor || s == ReqHttpDot || s == ReqHttpMinor || s == ReqHttpEnd || s == ReqLineAlmostDone || s == Dead
  }

  lemma NumberEarly(f: Fields, c: char)
    requires InNumber(f.stage)
    ensures EarlyAct(RequestLine(f, c))
  {
  }

  lemma LettersEarly(f: Fields, c: char)
    requires InVersion(f.stage) && !InNumber(f.stage)
    ensures EarlyAct(RequestLine(f, c))
  {
  }

  lemma LineEarly(f: Fields, c: char)
    requires !Bulk(f.stage) && !InHeaders(f.stage) && !InChunks(f.stage)
    ensures EarlyAct(RequestLine(f, c))
  {
    if InVersion(f.stage) {
      VersionEarly(f, c);
    } else if f.stage == StartReq {
      BeginEarly(f, c);
    } else if f.stage == ReqMethod {
      MethodEarly(f, c);
    } else if f.stage == ReqSpacesBeforeUrl {
      FirstUrlEarly(f, c);
    } else {
      UrlEarly(f, c);
    }
  }

  lemma LineSound(f: Fields, c: char)
    requires !Bulk(f.stage) && !InHeaders(f.stage) && !InChunks(f.stage)
    ensures var a := RequestLine(f, c); a.next == Done ==> Sound(a.f, 0) && Decided(a.f)
    ensures RequestLine(f, c).next != Leave(Aborted)
  {
    LineEarly(f, c);
    EarlySound(RequestLine(f, c).f);
  }

  lemma EarlySound(f: Fields)
    requires Early(f.stage)
    ensures Sound(f, 0) && Decided(f)
  {
  }

  lemma ValueStartSound(f: Fields, c: char)
    ensures var a := ValueStart(f, c);
            && (a.next == Done ==> Sound(a.f, 0) && (a.f.headerState == Connection ==> f.headerState == Connection && (c == ' ' || c == '\0')))
            && a.next != Again && a.next != Leave(Aborted)
  {
  }

  lemma LwsSound(f: Fields, c: char)
    requires f.headerState != TransferEncoding
    ensures ValueLws(f, c).next == Again && Sound(ValueLws(f, c).f, 1)
  {
  }

  lemma OtherHeadersSound(f: Fields, c: char)
    requires InHeaders(f.stage) && !InValue(f.stage) && f.stage != HeaderValueDiscardWs
    ensures var a := Headers(f, c);
            (a.next == Done ==> Sound(a.f, 0)) && (a.next == Again ==> Sound(a.f, 1)) && a.next != Leave(Aborted)
  {
    if f.stage == HeadersAlmostDone {
      EndSound(f, c);
    } else if f.stage == HeadersDone {
      BodySound(f, c);
    } else if f.stage == HeaderFieldStart {
      FieldStartSound(f, c);
    } else {
      DiscardSound(f, c);
    }
  }

  lemma EndSound(f: Fields, c: char)
    ensures var a := HeadersEnd(f, c);
            (a.next == Done ==> Sound(a.f, 0)) && (a.next == Again ==> Sound(a.f, 1)) && a.next != Leave(Aborted)
  {
  }

  lemma BodySound(f: Fields, c: char)
    ensures var a := BodyStart(f, c);
            (a.next == Done ==> Sound(a.f, 0)) && a.next != Again && a.next != Leave(Aborted)
  {
  }

  lemma FieldStartSound(f: Fields, c: char)
    ensures var a := FieldStart(f, c);
            (a.next == Done ==> Sound(a.f, 0)) && (a.next == Again ==> Sound(a.f, 1)) && a.next != Leave(Aborted)
  {
  }

  lemma DiscardSound(f: Fields, c: char)
    requires f.stage == HeaderValueDiscardWsAlmostDone || f.stage == HeaderValueDiscardLws
    ensures var a := Headers(f, c);
            (a.next == Done ==> Sound(a.f, 0)) && (a.next == Again ==> Sound(a.f, 1)) && a.next != Leave(Aborted)
  {
  }

  lemma AlmostDoneSound(f: Fields, c: char)
    requires f.stage == HeaderAlmostDone && f.headerState != TransferEncoding
    ensures var a := Headers(f, c);
            (a.next == Done ==> Sound(a.f, 0)) && a.next != Again && a.next != Leave(Aborted)
  {
  }

  lemma ValueSoundAt(f: Fields, c: char)
    requires f.stage == HeaderValueStart || f.stage == HeaderValueDiscardWs
    ensures var a := Headers(f, c);
            (a.next == Done ==> Sound(a.f, 0)) && a.next != Again && a.next != Leave(Aborted)
  {
    ValueStartSound(f, c);
  }

  lemma HeadersSound(f: Fields, c: char)
    requires InHeaders(f.stage) && Sound(f, 1)
    ensures var a := Headers(f, c);
            (a.next == Done ==> Sound(a.f, 0)) && (a.next == Again ==> Sound(a.f, 1)) && a.next != Leave(Aborted)
  {
    if f.stage == HeaderValueStart || f.stage == HeaderValueDiscardWs {
      ValueSoundAt(f, c);
    } else if f.stage == HeaderValueLws {
      LwsSound(f, c);
    } else if f.stage == HeaderAlmostDone {
      AlmostDoneSound(f, c);
    } else {
      OtherHeadersSound(f, c);
    }
  }

  lemma HeadersDecided(f: Fields, c: char)
    requires InHeaders(f.stage) && Decided(f) && c != '\0' && (f.stage == HeaderValueStart ==> f.headerState != Connection)
    ensures Headers(f, c).next.Leave? || Decided(Headers(f, c).f)
  {
    if f.stage == HeaderValueStart || f.stage == HeaderValueDiscardWs {
      ValueStartSound(f, c);
    }
  }

  ghost predicate ChunkAct(a: Act) {
    (a.next == Done ==> Sound(a.f, 0) && Decided(a.f)) && a.next != Again && a.next != Leave(Aborted)
  }

  lemma ChunksSound(f: Fields, c: char)
    requires InChunks(f.stage) && Sound(f, 1)
    ensures ChunkAct(Chunks(f, c))
  {
    if f.stage == ChunkSizeStart || f.stage == ChunkSize {
      SizeSound(f, c);
    } else if f.stage == ChunkParameters || f.stage == ChunkSizeAlmostDone {
      SizeEndSound(f, c);
    } else {
      DataEndSound(f, c);
    }
  }

  lemma SizeEndSound(f: Fields, c: char)
    requires Sound(f, 1) && (f.stage == ChunkParameters || f.stage == ChunkSizeAlmostDone)
    ensures ChunkAct(Chunks(f, c))
  {
  }

  lemma DataEndSound(f: Fields, c: char)
    requires Sound(f, 1) && (f.stage == ChunkDataAlmostDone || f.stage == ChunkDataDone || f.stage == MessageDone)
    ensures ChunkAct(Chunks(f, c))
  {
    if f.stage == MessageDone {
      MessageDoneSound(f, c);
    } else if f.stage == ChunkDataAlmostDone {
      DataDoneSound(f);
    } else {
      NextSizeSound(f);
    }
  }

  lemma MessageDoneSound(f: Fields, c: char)
    requires f.stage == MessageDone
    ensures ChunkAct(Chunks(f, c))
  {
    EarlySound(NewMessage(f).f);
  }

  lemma DataDoneSound(f: Fields)
    requires f.flags.chunked
    ensures var g := f.(stage := ChunkDataDone); Sound(g, 0) && Decided(g)
  {
  }

  lemma NextSizeSound(f: Fields)
    requires f.flags.chunked
    ensures var g := f.(nread := 0, stage := ChunkSizeStart); Sound(g, 0) && Decided(g)
  {
  }

  lemma SizeSound(f: Fields, c: char)
    requires Sound(f, 1) && (f.stage == ChunkSizeStart || f.stage == ChunkSize)
    ensures ChunkAct(Chunks(f, c))
  {
  }

  lemma PlainSound(f: Fields, c: char)
    requires !Bulk(f.stage) && Sound(f, 1)
    ensures var a := Plain(f, c);
            (a.next == Done ==> Sound(a.f, 0)) && (a.next == Again ==> Sound(a.f, 1)) && a.next != Leave(Aborted)
  {
    if InHeaders(f.stage) {
      HeadersSound(f, c);
    } else if InChunks(f.stage) {
      ChunksSound(f, c);
    } else {
      LineSound(f, c);
      if Plain(f, c).next == Again {
        AgainSinks(f, c);
      }
    }
  }

  lemma PlainDecided(f: Fields, c: char)
    requires !Bulk(f.stage) && Sound(f, 1) && Decided(f) && c != '\0'
    ensures Plain(f, c).next.Leave? || Decided(Plain(f, c).f)
  {
    if InHeaders(f.stage) {
      HeadersDecided(f, c);
    } else if InChunks(f.stage) {
      ChunksSound(f, c);
    } else {
      LineSound(f, c);
      if Plain(f, c).next == Again {
        AgainSinks(f, c);
      }
    }
  }

  lemma NameSound(s: Scan, c: char)
    requires NameState(s.headerState)
    ensures FieldChar(s, c).Ok? && NameState(FieldChar(s, c).s.headerState)
  {
  }

  lemma ValueSound(s: Scan, c: char)
    requires s.headerState != TransferEncoding
    ensures ValueChar(s, c) == Bad(Aborted) <==> IsHeaderChar(c) && s.headerState == Connection
    ensures ValueChar(s, c).Ok? ==>
              ValueChar(s, c).s.headerState != TransferEncoding && ValueChar(s, c).s.headerState != Connection
  {
  }

  // ---------------------------------------------------------------- whole runs

  /** The one state and byte at which an assertion of the source fails. */
  predicate Unexpected(f: Fields, c: char) {
    f.stage == HeaderValue && f.headerState == Connection && IsHeaderChar(c) && c != CR && c != LF
  }

  /** What the switch makes of fields and a byte. */
  ghost predicate Kept<L>(f: Fields, c: char, m: Machine<L>) {
    && (m.Running? ==> Sound(m.f, 0) && (Decided(f) && c != '\0' ==> Decided(m.f)))
    && (m == Halted(Aborted) <==> Unexpected(f, c))
  }

  lemma ExecNameSound<L>(push: Sink<L>, f: Fields, log: L, c: char)
    requires Sound(f, 1) && f.stage == HeaderField
    ensures Kept(f, c, Exec(push, f, log, c))
  {
    var m := ExecName(push, f, log, c);
  }

  lemma ExecName<L>(push: Sink<L>, f: Fields, log: L, c: char) returns (m: Machine<L>)
    requires f.stage == HeaderField && NameState(f.headerState)
    ensures m == Exec(push, f, log, c) && m != Halted(Aborted)
    ensures m.Running? ==> m.f == f.(stage := HeaderValueDiscardWs) || (m.f.stage == HeaderField && m.f.nread == f.nread && NameState(m.f.headerState))
  {
    m := Exec(push, f, log, c);
    NameSound(ScanOf(f), c);
  }

  lemma {:induction false} ExecSound<L>(push: Sink<L>, f: Fields, log: L, c: char)
    requires Sound(f, 1)
    ensures Kept(f, c, Exec(push, f, log, c))
    decreases Rank(f.stage)
  {
    if f.stage == HeaderField {
      ExecNameSound(push, f, log, c);
    } else if f.stage == HeaderValue {
      ExecValueSound(push, f, log, c);
    } else if f.stage == BodyIdentity {
      ExecBodySound(push, f, log, c);
    } else if f.stage == ChunkData {
      ExecChunkSound(push, f, log, c);
    } else {
      ExecPlainSound(push, f, log, c);
    }
  }

  lemma {:induction false} ExecValueSound<L>(push: Sink<L>, f: Fields, log: L, c: char)
    requires Sound(f, 1) && f.stage == HeaderValue
    ensures Kept(f, c, Exec(push, f, log, c))
    decreases Rank(f.stage), 0
  {
    if c == LF {
      ExecPlainSound(push, f.(stage := HeaderAlmostDone), log, c);
    } else if c != CR {
      ValueSound(ScanOf(f), c);
    }
  }

  lemma {:induction false} ExecBodySound<L>(push: Sink<L>, f: Fields, log: L, c: char)
    requires Sound(f, 1) && f.stage == BodyIdentity
    ensures Kept(f, c, Exec(push, f, log, c))
    decreases Rank(f.stage), 0
  {
    if f.contentLength == 1 {
      var g, log' := f.(contentLength := 0, stage := MessageDone), push(log, Data(Body, [c]));
      ExecPlainSound(push, g, log', c);
      LastBodyByte(f, c, Exec(push, g, log', c));
    }
  }

  lemma LastBodyByte<L>(f: Fields, c: char, m: Machine<L>)
    requires f.stage == BodyIdentity && Kept(f.(contentLength := 0, stage := MessageDone), c, m)
    ensures Kept(f, c, m)
  {
  }

  lemma ExecChunkSound<L>(push: Sink<L>, f: Fields, log: L, c: char)
    requires Sound(f, 1) && f.stage == ChunkData
    ensures Kept(f, c, Exec(push, f, log, c))
  {
  }

  lemma {:induction false} ExecPlainSound<L>(push: Sink<L>, f: Fields, log: L, c: char)
    requires Sound(f, 1) && !Bulk(f.stage)
    ensures Kept(f, c, Exec(push, f, log, c))
    decreases Rank(f.stage), 0
  {
    PlainSound(f, c);
    var a := Plain(f, c);
    if Decided(f) && c != '\0' {
      PlainDecided(f, c);
    }
    if a.next == Again {
      AgainSinks(f, c);
      ExecSound(push, a.f, Noted(push, log, a), c);
    }
  }

  /** In every run, `nread == 1` in front of a chunk's size, F_CHUNKED is set in all states of a chunk, body
      bytes are only read while some are left and a length is known, and the state of a header's name is one
      of the expected ones. The remaining assertion fails in exactly one situation. */
  lemma {:induction false} RunSound<L(!new)>(push: Sink<L>, log: L, data: string, c: char)
    ensures var m := Run(push, Running(INITIAL, log), data);
            m.Running? ==>
              && Sound(m.f, 0)
              && (StepByte(push, m, c) == Halted(Aborted) <==> Unexpected(m.f, c) && m.f.nread < MAX_HEADER_SIZE)
    decreases |data|
  {
    if data != "" {
      RunSound(push, log, data[..|data| - 1], data[|data| - 1]);
      var m := Run(push, Running(INITIAL, log), data[..|data| - 1]);
      if m.Running? {
        StepSound(push, m.f, m.log, data[|data| - 1]);
      }
    }
    var m := Run(push, Running(INITIAL, log), data);
    if m.Running? {
      StepSound(push, m.f, m.log, c);
    }
  }

  /** What a step makes of fields and a byte. */
  ghost predicate Stepped<L>(f: Fields, c: char, m: Machine<L>) {
    && (m.Running? ==> Sound(m.f, 0) && (Decided(f) && c != '\0' ==> Decided(m.f)))
    && (m == Halted(Aborted) <==> Unexpected(f, c) && f.nread < MAX_HEADER_SIZE)
  }

  lemma StepSound<L(!new)>(push: Sink<L>, f: Fields, log: L, c: char)
    requires Sound(f, 0)
    ensures Stepped(f, c, StepByte(push, Running(f, log), c))
  {
    if InHeader(f.stage) {
      CountedStepSound(push, f, log, c);
    } else {
      FreeStepSound(push, f, log, c);
    }
  }

  lemma FreeStep<L>(push: Sink<L>, f: Fields, log: L, c: char)
    requires !InHeader(f.stage)
    ensures StepByte(push, Running(f, log), c) == Exec(push, f, log, c)
  {
  }

  lemma CountedStep<L>(push: Sink<L>, f: Fields, g: Fields, log: L, c: char)
    requires InHeader(f.stage) && g == f.(nread := f.nread + 1) && g.nread <= MAX_HEADER_SIZE
    ensures StepByte(push, Running(f, log), c) == Exec(push, g, log, c)
  {
    calc {
      StepByte(push, Running(f, log), c);
      Exec(push, f.(nread := f.nread + 1), log, c);
      Exec(push, g, log, c);
    }
  }

  lemma OverflowStep<L>(push: Sink<L>, f: Fields, log: L, c: char)
    requires InHeader(f.stage) && f.nread >= MAX_HEADER_SIZE
    ensures StepByte(push, Running(f, log), c) == Halted(Error(HEADER_OVERFLOW))
  {
  }

  lemma FreeStepSound<L(!new)>(push: Sink<L>, f: Fields, log: L, c: char)
    requires Sound(f, 0) && !InHeader(f.stage)
    ensures Stepped(f, c, StepByte(push, Running(f, log), c))
  {
    OutOfHeader<L>(f, c);
    ExecSound(push, f, log, c);
    FreeStep(push, f, log, c);
    assert Kept(f, c, Exec(push, f, log, c));
  }

  lemma CountedStepSound<L(!new)>(push: Sink<L>, f: Fields, log: L, c: char)
    requires Sound(f, 0) && InHeader(f.stage)
    ensures Stepped(f, c, StepByte(push, Running(f, log), c))
  {
    if f.nread < MAX_HEADER_SIZE {
      var g := f.(nread := f.nread + 1);
      CountedSound<L>(f, c);
      ExecSound(push, g, log, c);
      CountedStep(push, f, g, log, c);
      assert Kept(g, c, Exec(push, g, log, c));
    } else {
      OverflowStep(push, f, log, c);
    }
  }

  lemma OutOfHeader<L(!new)>(f: Fields, c: char)
    requires Sound(f, 0) && !InHeader(f.stage)
    ensures Sound(f, 1)
    ensures forall m: Machine<L> {:trigger Kept(f, c, m)} :: Kept(f, c, m) ==> Stepped(f, c, m)
  {
  }

  lemma CountedSound<L(!new)>(f: Fields, c: char)
    requires Sound(f, 0) && InHeader(f.stage) && f.nread < MAX_HEADER_SIZE
    ensures Sound(f.(nread := f.nread + 1), 1)
    ensures forall m: Machine<L> {:trigger Kept(f.(nread := f.nread + 1), c, m)} :: Kept(f.(nread := f.nread + 1), c, m) ==> Stepped(f, c, m)
  {
  }

  /** That situation needs a NUL: without one, no assertion fails at all. */
  lemma {:induction false} NoNulNoAbort<L(!new)>(push: Sink<L>, log: L, data: string)
    requires '\0' !in data
    ensures var m := Run(push, Running(INITIAL, log), data);
            m != Halted(Aborted) && (m.Running? ==> Decided(m.f) && Sound(m.f, 0))
    decreases |data|
  {
    if data != "" {
      NoNulNoAbort(push, log, data[..|data| - 1]);
      var m := Run(push, Running(INITIAL, log), data[..|data| - 1]);
      if m.Running? {
        StepSound(push, m.f, m.log, data[|data| - 1]);
      }
    }
  }

  /** With one it happens: a `Connection` header whose value begins with NUL and goes on. */
  lemma NulAborts<L(!new)>(push: Sink<L>, f: Fields, log: L, c: char)
    requires f.stage == HeaderValueDiscardWs && f.headerState == Connection && f.nread + 2 <= MAX_HEADER_SIZE
    requires IsHeaderChar(c) && c != CR && c != LF
    ensures StepByte(push, StepByte(push, Running(f, log), '\0'), c) == Halted(Aborted)
  {
    var m := StepByte(push, Running(f, log), '\0');
    assert m.Running? && m.f.stage == HeaderValue && m.f.headerState == Connection && m.f.nread == f.nread + 1;
    StepSound(push, m.f, m.log, c);
  }
}
