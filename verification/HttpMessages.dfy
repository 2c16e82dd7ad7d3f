/** Whole requests: from the text of any well-formed one, the callbacks get exactly what it says. */
module HttpMessages {
  import opened Options
  import opened HttpText
  import opened HttpMethods
  import opened HttpMachine
  import opened HttpParser
  import opened HttpRequests
  import opened HttpBodies
  import opened HttpHeaders
  import opened HttpRequestLine
  import HttpTrailers
  import HttpSafety

  // ---------------------------------------------------------------- requests as they are written

  datatype Payload =
    | NoBody
    | Sized(bytes: string)
    | Chunked(chunks: seq<Chunk>, last: Chunk, trailer: seq<Header>)

  /** A request. Its method is a place in the table of names. */
  datatype Message = Message(
    method_: nat, target: Target, major: char, minor: char, headers: seq<Header>, payload: Payload)

  function PayloadText(p: Payload): string {
    match p
    case NoBody => ""
    case Sized(bytes) => bytes
    case Chunked(chunks, last, trailer) => Text(chunks) + (SizeLine(last) + (Lines(trailer) + "\r\n"))
  }

  function HeadText(m: Message): string
    requires m.method_ < |METHODS|
  {
    LineText(METHODS[m.method_], m.target, m.major, m.minor) + (Lines(m.headers) + "\r\n")
  }

  function MessageText(m: Message): string
    requires m.method_ < |METHODS|
  {
    HeadText(m) + PayloadText(m.payload)
  }

  /** The body is announced by the header lines as it is: not at all, by its length, or as chunks. */
  predicate Announced(m: Message) {
    match m.payload
    case NoBody => !Exists(m.headers, UsesEncoding) && !Exists(m.headers, HasLength)
    case Sized(bytes) =>
      && !Exists(m.headers, UsesEncoding)
      && exists i :: 0 <= i < |m.headers| && HasLength(m.headers[i]) && Decimal(Digits(m.headers[i].value)) == |bytes|
    case Chunked(chunks, last, trailer) =>
      && Exists(m.headers, SaysChunked) && !Exists(m.headers, HasLength)
      && (forall i | 0 <= i < |chunks| :: WellFormedChunk(chunks[i]) && chunks[i].data != "") && WellFormedChunk(last) && last.data == ""
      && WellFormedHeaders(trailer) && |Lines(trailer)| + 2 <= MAX_HEADER_SIZE
  }

  predicate WellFormedHead(m: Message) {
    && m.method_ < |METHODS| && WellFormedTarget(m.target) && (METHODS[m.method_] == "CONNECT" <==> m.target.Authority?)
    && Numeral(m.major) && Numeral(m.minor) && WellFormedHeaders(m.headers)
  }

  predicate WellFormed(m: Message) {
    WellFormedHead(m) && Announced(m)
  }

  /** The request asks for another protocol. */
  predicate Upgrading(m: Message)
    requires m.method_ < |METHODS|
  {
    METHODS[m.method_] == "CONNECT" || Exists(m.headers, Upgrades)
  }

  /** What the header lines say. */
  function FlagsOf(hs: seq<Header>): Flags {
    Flags(Exists(hs, SaysChunked), Exists(hs, KeepsAlive), Exists(hs, Closes), false, Exists(hs, Upgrades), Exists(hs, HasLength))
  }

  function BodyEvents(p: Payload): seq<Event> {
    match p
    case NoBody => []
    case Sized(bytes) => if bytes == "" then [] else [Data(Body, bytes)]
    case Chunked(chunks, _, trailer) => (if chunks == [] then [] else [Data(Body, AllData(chunks))]) + HeadersOf(trailer)
  }

  /** What the callbacks are to see. */
  function Events(m: Message): seq<Event>
    requires WellFormed(m)
  {
    [MessageBegin, Data(Url, TargetText(m.target))] + HeadersOf(m.headers)
    + [HeadersComplete(m.method_, DigitValue(m.major), DigitValue(m.minor), FlagsOf(m.headers), Upgrading(m))]
    + BodyEvents(m.payload) + [MessageComplete]
  }

  // ---------------------------------------------------------------- the head

  /** After the header lines, in front of the blank line. */
  ghost predicate HeadRead(m: Message, f: Fields)
    requires WellFormedHead(m)
  {
    && AtLine(f) && !f.flags.trailing && f.method_ == m.method_ && f.major == DigitValue(m.major) && f.minor == DigitValue(m.minor)
    && HeadOf(f) == HeadAfter(Head(NO_FLAGS, false, ULLONG_MAX), m.headers)
  }

  function Opened<L>(push: Sink<L>, log: L, m: Message): L {
    push(push(log, MessageBegin), Data(Url, TargetText(m.target)))
  }

  lemma TargetMayBe(m: Message)
    requires WellFormedHead(m)
    ensures TargetFits(m.method_, m.target)
  {
    ConnectIs(m.method_);
  }

  lemma NothingBefore(m: Message)
    requires WellFormedHead(m)
    ensures AllMayFollow(Head(NO_FLAGS, false, ULLONG_MAX), m.headers)
  {
  }

  lemma LinesLead<L(!new)>(push: Sink<L>, f: Fields, log: L, hs: seq<Header>) returns (g: Fields, log': L)
    requires Joins(push) && AtLine(f) && AllMayFollow(HeadOf(f), hs) && f.nread + |Lines(hs)| <= MAX_HEADER_SIZE
    ensures AtLine(g) && Carries(f, g, |Lines(hs)|) && HeadOf(g) == HeadAfter(HeadOf(f), hs)
    ensures Flushed(push, g, log') == Fold(push, Flushed(push, f, log), HeadersOf(hs))
    ensures Leads(push, Running(f, log), Lines(hs), g, log')
  {
    g, log' := LinesRead(push, f, log, hs);
    ReadsMeans(push, Running(f, log), Lines(hs), g, log');
    LeadsMeans(push, Running(f, log), Lines(hs), g, log');
  }

  /** The request line and the header lines. */
  lemma LinesOfHead<L(!new)>(push: Sink<L>, f: Fields, log: L, m: Message, line: string) returns (g: Fields, log': L)
    requires Joins(push) && f.stage == StartReq && WellFormedHead(m) && line == LineText(METHODS[m.method_], m.target, m.major, m.minor)
    requires f.nread + |line| + |Lines(m.headers)| <= MAX_HEADER_SIZE
    ensures HeadRead(m, g) && g.nread == f.nread + |line| + |Lines(m.headers)|
    ensures Flushed(push, g, log') == Fold(push, Opened(push, log, m), HeadersOf(m.headers))
    ensures Leads(push, Running(f, log), line + Lines(m.headers), g, log')
  {
    TargetMayBe(m);
    NothingBefore(m);
    var f1 := RequestLineRead(push, f, log, m.method_, METHODS[m.method_], m.target, m.major, m.minor);
    g, log' := LinesLead(push, f1, Opened(push, log, m), m.headers);
    LeadsMore(push, Running(f, log), line, Lines(m.headers), f1, Opened(push, log, m), g, log');
  }

  /** The length, when the lines give one. */
  lemma LengthOf(m: Message, f: Fields)
    requires WellFormed(m) && HeadRead(m, f)
    ensures match m.payload
            case Sized(bytes) => f.contentLength == |bytes|
            case _ => f.contentLength == ULLONG_MAX
  {
    LengthSaid(Head(NO_FLAGS, false, ULLONG_MAX), m.headers);
  }

  /** What the lines have said, in the words of the request. */
  lemma HeadSays(m: Message, f: Fields)
    requires WellFormed(m) && HeadRead(m, f)
    ensures Settled(f) == FlagsOf(m.headers) && f.usesTransferEncoding == Exists(m.headers, UsesEncoding)
    ensures f.contentLength == match m.payload case Sized(bytes) => |bytes| case _ => ULLONG_MAX
    ensures Exists(m.headers, SaysChunked) ==> m.payload.Chunked? && f.usesTransferEncoding
    ensures Exists(m.headers, HasLength) <==> m.payload.Sized?
    ensures f.usesTransferEncoding <==> m.payload.Chunked?
  {
    LinesSay(Head(NO_FLAGS, false, ULLONG_MAX), m.headers);
    LengthOf(m, f);
    ChunkedUses(m.headers);
  }

  lemma ChunkedUses(hs: seq<Header>)
    ensures Exists(hs, SaysChunked) ==> Exists(hs, UsesEncoding)
  {
    if Exists(hs, SaysChunked) {
      var i :| 0 <= i < |hs| && SaysChunked(hs[i]);
      assert hs[i].name[..17] == hs[i].name;
      assert UsesEncoding(hs[i]);
    }
  }

  /** Where the blank line leads: to the body, or to the end of the message. */
  function AfterHead(f: Fields, m: Message): Fields
    requires m.method_ < |METHODS|
  {
    f.(stage := if m.payload.Chunked? then ChunkSizeStart else if m.payload.Sized? && m.payload.bytes != "" then BodyIdentity else StartReq,
       flags := FlagsOf(m.headers), upgrade := false, nread := 0)
  }

  lemma BlankLineRead<L(!new)>(push: Sink<L>, f: Fields, log: L) returns (g: Fields)
    requires AtLine(f) && f.nread < MAX_HEADER_SIZE
    ensures g == LineBegun(f).(stage := HeadersAlmostDone, nread := f.nread + 1)
    ensures Leads(push, Running(f, log), "\r", g, Flushed(push, f, log))
  {
    g := BlankLine(push, f, log);
    LeadsOne(push, f, log, CR, g, Flushed(push, f, log));
  }

  /** The callback for the end of the head. */
  function Announcement(m: Message): Event
    requires WellFormedHead(m)
  {
    HeadersComplete(m.method_, DigitValue(m.major), DigitValue(m.minor), FlagsOf(m.headers), Upgrading(m))
  }

  lemma HeadersEndIs(f: Fields, m: Message, g: Fields)
    requires WellFormedHead(m) && f.stage == HeadersAlmostDone && f.flags == FlagsOf(m.headers) && !(f.usesTransferEncoding && f.flags.contentLength)
    requires f.method_ == m.method_ && f.major == DigitValue(m.major) && f.minor == DigitValue(m.minor)
    requires g == f.(stage := HeadersDone, upgrade := Upgrading(m))
    ensures Plain(f, LF) == Act(g, None, None, Some(Announcement(m)), Again)
  {
    ConnectIs(m.method_);
  }

  /** Where the end of the head leads. */
  function Started<L>(push: Sink<L>, f: Fields, log: L): Machine<L> {
    if f.flags.chunked then Running(f.(stage := ChunkSizeStart, nread := 0), log)
    else if f.contentLength == 0 || f.contentLength == ULLONG_MAX then Running(f.(stage := StartReq, nread := 0), push(log, MessageComplete))
    else Running(f.(stage := BodyIdentity, nread := 0), log)
  }

  lemma BodyStarts<L(!new)>(push: Sink<L>, f: Fields, log: L)
    requires f.stage == HeadersDone && !f.upgrade
    requires !f.flags.chunked ==> !f.usesTransferEncoding
    ensures Exec(push, f, log, LF) == Started(push, f, log)
  {
    PlainBody(f);
    ExecPlain(push, f, log, LF);
  }

  lemma PlainBody(f: Fields)
    requires f.stage == HeadersDone
    ensures Plain(f, LF) == BodyStart(f, LF)
  {
  }

  lemma UpgradeLeaves<L(!new)>(push: Sink<L>, f: Fields, log: L)
    requires f.stage == HeadersDone && f.upgrade
    ensures Exec(push, f, log, LF) == Halted(Upgraded)
  {
    ExecPlain(push, f, log, LF);
  }

  /** The line feed of the blank line: the end of the head is announced, and the byte is looked at again. */
  lemma LastFeed<L(!new)>(push: Sink<L>, f: Fields, log: L, m: Message, g: Fields)
    requires WellFormedHead(m) && f.stage == HeadersAlmostDone && f.flags == FlagsOf(m.headers) && !(f.usesTransferEncoding && f.flags.contentLength)
    requires f.method_ == m.method_ && f.major == DigitValue(m.major) && f.minor == DigitValue(m.minor) && f.nread < MAX_HEADER_SIZE
    requires g == f.(stage := HeadersDone, upgrade := Upgrading(m), nread := f.nread + 1)
    ensures StepByte(push, Running(f, log), LF) == Exec(push, g, push(log, Announcement(m)), LF)
  {
    var f1 := f.(nread := f.nread + 1);
    HttpSafety.CountedStep(push, f, f1, log, LF);
    HeadersEndIs(f1, m, g);
    ExecAgain(push, f1, log, LF);
  }

  /** What the callbacks have seen when the head has been read. */
  function Seen<L>(push: Sink<L>, log: L, m: Message): L
    requires WellFormed(m)
  {
    var log1 := push(log, Announcement(m));
    if m.payload.NoBody? || (m.payload.Sized? && m.payload.bytes == "") then push(log1, MessageComplete) else log1
  }

  lemma LengthFits(m: Message)
    requires WellFormed(m) && m.payload.Sized?
    ensures |m.payload.bytes| < ULLONG_MAX
  {
    var i :| 0 <= i < |m.headers| && HasLength(m.headers[i]) && Decimal(Digits(m.headers[i].value)) == |m.payload.bytes|;
    assert WellFormedHeader(m.headers[i]);
  }

  lemma StartedIs<L>(push: Sink<L>, f: Fields, log: L, m: Message, g: Fields)
    requires WellFormed(m) && HeadRead(m, f) && !Upgrading(m)
    requires g == LineBegun(f).(stage := HeadersDone, upgrade := false, nread := f.nread + 2)
    ensures !g.flags.chunked ==> !g.usesTransferEncoding
    ensures Started(push, g, push(log, Announcement(m))) == Running(AfterHead(f, m), Seen(push, log, m))
  {
    HeadSays(m, f);
    if m.payload.Sized? {
      LengthFits(m);
    }
  }

  /** The feed on the machine, when the request stays with this protocol. */
  lemma FeedRead<L(!new)>(push: Sink<L>, f: Fields, log: L, m: Message, h: Fields)
    requires WellFormed(m) && HeadRead(m, f) && !Upgrading(m) && f.nread + 2 <= MAX_HEADER_SIZE
    requires h == LineBegun(f).(stage := HeadersAlmostDone, nread := f.nread + 1)
    ensures Leads(push, Running(h, log), "\n", AfterHead(f, m), Seen(push, log, m))
  {
    var g := h.(stage := HeadersDone, upgrade := false, nread := h.nread + 1);
    HeadSays(m, f);
    LastFeed(push, h, log, m, g);
    StartedIs(push, f, log, m, g);
    BodyStarts(push, g, push(log, Announcement(m)));
    LeadsOne(push, h, log, LF, AfterHead(f, m), Seen(push, log, m));
  }

  lemma FeedLeaves<L(!new)>(push: Sink<L>, f: Fields, log: L, m: Message, h: Fields)
    requires WellFormed(m) && HeadRead(m, f) && Upgrading(m) && f.nread + 2 <= MAX_HEADER_SIZE
    requires h == LineBegun(f).(stage := HeadersAlmostDone, nread := f.nread + 1)
    ensures StepByte(push, Running(h, log), LF) == Halted(Upgraded)
  {
    HeadSays(m, f);
    var g := h.(stage := HeadersDone, upgrade := true, nread := h.nread + 1);
    LastFeed(push, h, log, m, g);
    UpgradeLeaves(push, g, push(log, Announcement(m)));
  }

  /** The events of a head. */
  function HeadEvents(m: Message): seq<Event>
    requires WellFormed(m)
  {
    [MessageBegin, Data(Url, TargetText(m.target))] + HeadersOf(m.headers) + [Announcement(m)]
  }

  lemma HeadFolds<L>(push: Sink<L>, log: L, m: Message)
    requires WellFormed(m)
    ensures Fold(push, log, HeadEvents(m)) == push(Fold(push, Opened(push, log, m), HeadersOf(m.headers)), Announcement(m))
  {
    var two := [MessageBegin, Data(Url, TargetText(m.target))];
    FoldTwo(push, log, [], MessageBegin, Data(Url, TargetText(m.target)));
    assert [] + two == two && Fold(push, log, []) == log;
    FoldSplit(push, log, two, HeadersOf(m.headers));
    FoldPushed(push, log, two + HeadersOf(m.headers), Announcement(m));
  }

  /** The head of a request, with the blank line after it. */
  lemma HeadIsRead<L(!new)>(push: Sink<L>, f: Fields, log: L, m: Message, head: string) returns (g: Fields)
    requires Joins(push) && f.stage == StartReq && WellFormed(m) && !Upgrading(m) && head == HeadText(m)
    requires f.nread + |head| <= MAX_HEADER_SIZE
    ensures g == AfterHead(g, m) && g.contentLength == match m.payload case Sized(bytes) => |bytes| case _ => ULLONG_MAX
    ensures Leads(push, Running(f, log), head, g,
                  if m.payload.NoBody? || m.payload == Sized("") then push(Fold(push, log, HeadEvents(m)), MessageComplete)
                  else Fold(push, log, HeadEvents(m)))
  {
    var line := LineText(METHODS[m.method_], m.target, m.major, m.minor);
    var f1, log1 := LinesOfHead(push, f, log, m, line);
    var h := BlankLineRead(push, f1, log1);
    FeedRead(push, f1, Flushed(push, f1, log1), m, h);
    HeadSays(m, f1);
    HeadFolds(push, log, m);
    g := AfterHead(f1, m);
    HeadEndsIn(m, line + Lines(m.headers));
    ThreeParts(push, Running(f, log), line + Lines(m.headers), f1, log1, h, Flushed(push, f1, log1), g, Seen(push, Flushed(push, f1, log1), m), head);
  }

  lemma ThreeParts<L(!new)>(push: Sink<L>, m: Machine<L>, text: string, f1: Fields, log1: L, h: Fields, log2: L, g: Fields, log3: L, whole: string)
    requires Leads(push, m, text, f1, log1) && Leads(push, Running(f1, log1), "\r", h, log2) && Leads(push, Running(h, log2), "\n", g, log3)
    requires whole == (text + "\r") + "\n"
    ensures Leads(push, m, whole, g, log3)
  {
    LeadsMore(push, m, text, "\r", f1, log1, h, log2);
    LeadsMore(push, m, text + "\r", "\n", h, log2, g, log3);
  }

  // ---------------------------------------------------------------- whole requests

  /** How many bytes the parser goes on counting after a request: those of a trailer. */
  function Counted(m: Message): nat {
    match m.payload
    case Chunked(_, _, trailer) => |Lines(trailer)| + 2
    case _ => 0
  }

  lemma PayloadRead<L(!new)>(push: Sink<L>, f: Fields, log: L, m: Message) returns (g: Fields)
    requires Joins(push) && WellFormed(m) && f == AfterHead(f, m) && !(m.payload.NoBody? || m.payload == Sized(""))
    requires f.contentLength == match m.payload case Sized(bytes) => |bytes| case _ => ULLONG_MAX
    ensures g.stage == StartReq && g.nread == Counted(m)
    ensures Leads(push, Running(f, log), PayloadText(m.payload), g, push(Fold(push, log, BodyEvents(m.payload)), MessageComplete))
  {
    match m.payload
    case Sized(bytes) =>
      LengthFits(m);
      g := SizedRead(push, f, log, bytes);
    case Chunked(chunks, last, trailer) =>
      HeadersSay(m);
      g := ChunkedRead(push, f, log, chunks, last, trailer);
  }

  lemma HeadersSay(m: Message)
    requires WellFormed(m) && m.payload.Chunked?
    ensures FlagsOf(m.headers).chunked && !FlagsOf(m.headers).contentLength
  {
  }

  lemma SizedRead<L(!new)>(push: Sink<L>, f: Fields, log: L, bytes: string) returns (g: Fields)
    requires Joins(push) && f.stage == BodyIdentity && f.nread == 0 && f.contentLength == |bytes| && 0 < |bytes| < ULLONG_MAX
    ensures g.stage == StartReq && g.nread == 0
    ensures Leads(push, Running(f, log), bytes, g, push(Fold(push, log, [Data(Body, bytes)]), MessageComplete))
  {
    BodyDelivered(push, f, log, bytes);
    g := f.(contentLength := 0, stage := StartReq);
    FoldOne(push, log, Data(Body, bytes));
    LeadsMeans(push, Running(f, log), bytes, g, push(push(log, Data(Body, bytes)), MessageComplete));
  }

  lemma ChunkedRead<L(!new)>(push: Sink<L>, f: Fields, log: L, chunks: seq<Chunk>, last: Chunk, trailer: seq<Header>) returns (g: Fields)
    requires Joins(push) && f.stage == ChunkSizeStart && f.flags.chunked && f.nread == 0 && !f.flags.contentLength
    requires forall i | 0 <= i < |chunks| :: WellFormedChunk(chunks[i]) && chunks[i].data != ""
    requires WellFormedChunk(last) && last.data == "" && WellFormedHeaders(trailer) && |Lines(trailer)| + 2 <= MAX_HEADER_SIZE
    ensures g.stage == StartReq && g.nread == |Lines(trailer)| + 2
    ensures Leads(push, Running(f, log), PayloadText(Chunked(chunks, last, trailer)), g,
                  push(Fold(push, log, BodyEvents(Chunked(chunks, last, trailer))), MessageComplete))
  {
    g := HttpTrailers.TrailerDecoded(push, f, log, chunks, last, trailer);
    var body := if chunks == [] then [] else [Data(Body, AllData(chunks))];
    if chunks != [] {
      FoldOne(push, log, Data(Body, AllData(chunks)));
    }
    FoldSplit(push, log, body, HeadersOf(trailer));
    LeadsMeans(push, Running(f, log), PayloadText(Chunked(chunks, last, trailer)), g,
               push(Fold(push, Delivered(push, log, chunks), HeadersOf(trailer)), MessageComplete));
  }

  /** From the text of any well-formed request that stays with the protocol, wherever in a connection it stands,
      the callbacks get exactly what it says: the begin of the message, the target, each name and value, the end
      of the head with the method, the version and what the lines say, the body as one piece, the trailer, and
      the end of the message; and the parser is ready for the next one. */
  lemma MessageRead<L(!new)>(push: Sink<L>, f: Fields, log: L, m: Message) returns (g: Fields)
    requires Joins(push) && f.stage == StartReq && WellFormed(m) && !Upgrading(m) && f.nread + |HeadText(m)| <= MAX_HEADER_SIZE
    ensures g.stage == StartReq && g.nread == Counted(m)
    ensures Run(push, Running(f, log), MessageText(m)) == Running(g, Fold(push, log, Events(m)))
  {
    var log1 := Fold(push, log, HeadEvents(m));
    var f1 := HeadIsRead(push, f, log, m, HeadText(m));
    EventsFold(push, log, m);
    if m.payload.NoBody? || m.payload == Sized("") {
      g := f1;
      assert MessageText(m) == HeadText(m);
      LeadsMeans(push, Running(f, log), HeadText(m), g, push(log1, MessageComplete));
    } else {
      g := PayloadRead(push, f1, log1, m);
      LeadsMore(push, Running(f, log), HeadText(m), PayloadText(m.payload), f1, log1, g, Fold(push, log, Events(m)));
      LeadsMeans(push, Running(f, log), MessageText(m), g, Fold(push, log, Events(m)));
    }
  }

  lemma EventsFold<L>(push: Sink<L>, log: L, m: Message)
    requires WellFormed(m)
    ensures Fold(push, log, Events(m)) == push(Fold(push, Fold(push, log, HeadEvents(m)), BodyEvents(m.payload)), MessageComplete)
  {
    assert Events(m) == (HeadEvents(m) + BodyEvents(m.payload)) + [MessageComplete];
    FoldPushed(push, log, HeadEvents(m) + BodyEvents(m.payload), MessageComplete);
    FoldSplit(push, log, HeadEvents(m), BodyEvents(m.payload));
  }

  /** A request for another protocol is left at the end of its head. */
  lemma UpgradeRead<L(!new)>(push: Sink<L>, f: Fields, log: L, m: Message)
    requires Joins(push) && f.stage == StartReq && WellFormed(m) && Upgrading(m) && f.nread + |HeadText(m)| <= MAX_HEADER_SIZE
    ensures Run(push, Running(f, log), HeadText(m)) == Halted(Upgraded)
  {
    var line := LineText(METHODS[m.method_], m.target, m.major, m.minor);
    var f1, log1 := LinesOfHead(push, f, log, m, line);
    var h := BlankLineRead(push, f1, log1);
    FeedLeaves(push, f1, Flushed(push, f1, log1), m, h);
    LastByteHalts(push, f, log, m, f1, log1, h, Upgraded);
  }

  // ---------------------------------------------------------------- names that go on

  /** What a head says that is refused: an encoding is named, but none of the lines says `chunked`. */
  predicate EncodingUnsaid(m: Message) {
    Exists(m.headers, UsesEncoding) && !Exists(m.headers, SaysChunked)
  }

  lemma RefusedFeed<L(!new)>(push: Sink<L>, f: Fields, log: L, m: Message, h: Fields)
    requires WellFormedHead(m) && HeadRead(m, f) && !Upgrading(m) && EncodingUnsaid(m) && f.nread + 2 <= MAX_HEADER_SIZE
    requires h == LineBegun(f).(stage := HeadersAlmostDone, nread := f.nread + 1)
    ensures StepByte(push, Running(h, log), LF)
            == Halted(Error(if Exists(m.headers, HasLength) then UNEXPECTED_CONTENT_LENGTH else INVALID_TRANSFER_ENCODING))
  {
    LinesSay(Head(NO_FLAGS, false, ULLONG_MAX), m.headers);
    if Exists(m.headers, HasLength) {
      HttpSafety.CountedStep(push, h, h.(nread := h.nread + 1), log, LF);
      BothGiven(push, h.(nread := h.nread + 1), log);
    } else {
      WithoutLength(push, f, log, m, h);
    }
  }

  lemma WithoutLength<L(!new)>(push: Sink<L>, f: Fields, log: L, m: Message, h: Fields)
    requires WellFormedHead(m) && HeadRead(m, f) && !Upgrading(m) && f.nread + 2 <= MAX_HEADER_SIZE
    requires Settled(f) == FlagsOf(m.headers) && f.usesTransferEncoding && !Settled(f).chunked && !Settled(f).contentLength
    requires h == LineBegun(f).(stage := HeadersAlmostDone, nread := f.nread + 1)
    ensures StepByte(push, Running(h, log), LF) == Halted(Error(INVALID_TRANSFER_ENCODING))
  {
    var g := h.(stage := HeadersDone, upgrade := false, nread := h.nread + 1);
    LastFeed(push, h, log, m, g);
    EncodingFails(push, g, push(log, Announcement(m)));
  }

  lemma BothGiven<L(!new)>(push: Sink<L>, f: Fields, log: L)
    requires f.stage == HeadersAlmostDone && !f.flags.trailing && f.usesTransferEncoding && f.flags.contentLength
    ensures Exec(push, f, log, LF) == Halted(Error(UNEXPECTED_CONTENT_LENGTH))
  {
    ExecPlain(push, f, log, LF);
  }

  lemma EncodingFails<L(!new)>(push: Sink<L>, f: Fields, log: L)
    requires f.stage == HeadersDone && !f.upgrade && !f.flags.chunked && f.usesTransferEncoding
    ensures Exec(push, f, log, LF) == Halted(Error(INVALID_TRANSFER_ENCODING))
  {
    ExecPlain(push, f, log, LF);
  }

  /** The text of a head whose last byte stops the parser. */
  lemma LastByteHalts<L(!new)>(push: Sink<L>, f: Fields, log: L, m: Message, f1: Fields, log1: L, h: Fields, halt: Halt)
    requires m.method_ < |METHODS|
    requires var line := LineText(METHODS[m.method_], m.target, m.major, m.minor);
             Leads(push, Running(f, log), line + Lines(m.headers), f1, log1)
    requires Leads(push, Running(f1, log1), "\r", h, Flushed(push, f1, log1))
    requires StepByte(push, Running(h, Flushed(push, f1, log1)), LF) == Halted(halt)
    ensures Run(push, Running(f, log), HeadText(m)) == Halted(halt)
  {
    var text := LineText(METHODS[m.method_], m.target, m.major, m.minor) + Lines(m.headers);
    LeadsMore(push, Running(f, log), text, "\r", f1, log1, h, Flushed(push, f1, log1));
    HeadEndsIn(m, text);
    FeedHalts(push, Running(f, log), text + "\r", h, Flushed(push, f1, log1), halt, HeadText(m));
  }

  lemma HeadEndsIn(m: Message, text: string)
    requires m.method_ < |METHODS| && text == LineText(METHODS[m.method_], m.target, m.major, m.minor) + Lines(m.headers)
    ensures HeadText(m) == (text + "\r") + "\n"
  {
    assert "\r\n" == "\r" + "\n";
  }

  lemma FeedHalts<L(!new)>(push: Sink<L>, m: Machine<L>, text: string, h: Fields, log: L, halt: Halt, whole: string)
    requires Leads(push, m, text, h, log) && StepByte(push, Running(h, log), LF) == Halted(halt) && whole == text + "\n"
    ensures Run(push, m, whole) == Halted(halt)
  {
    LeadsMeans(push, m, text, h, log);
    assert whole[..|whole| - 1] == text;
    RunLast(push, m, whole);
  }

  /** The parser takes a name that only begins with `transfer-encoding` for that name: a well-formed head that has
      one, and does not say `chunked`, is refused. */
  lemma EncodingRefused<L(!new)>(push: Sink<L>, f: Fields, log: L, m: Message)
    requires Joins(push) && f.stage == StartReq && WellFormedHead(m) && !Upgrading(m) && EncodingUnsaid(m)
    requires f.nread + |HeadText(m)| <= MAX_HEADER_SIZE
    ensures Run(push, Running(f, log), HeadText(m))
            == Halted(Error(if Exists(m.headers, HasLength) then UNEXPECTED_CONTENT_LENGTH else INVALID_TRANSFER_ENCODING))
  {
    var line := LineText(METHODS[m.method_], m.target, m.major, m.minor);
    var f1, log1 := LinesOfHead(push, f, log, m, line);
    var h := BlankLineRead(push, f1, log1);
    RefusedFeed(push, f1, Flushed(push, f1, log1), m, h);
    LastByteHalts(push, f, log, m, f1, log1, h,
                  Error(if Exists(m.headers, HasLength) then UNEXPECTED_CONTENT_LENGTH else INVALID_TRANSFER_ENCODING));
  }

  /** Exactly which lines do that: those with a name that is longer. */
  lemma NamesThatGoOn(h: Header)
    requires WellFormedHeader(h) && UsesEncoding(h)
    ensures !SaysChunked(h) <==> |h.name| > 17
  {
    assert |h.name| == 17 ==> h.name[..17] == h.name;
  }
}
