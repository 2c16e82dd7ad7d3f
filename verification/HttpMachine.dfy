/** Crow's HTTP request parser (http_parser_merged.h), one byte at a time.

    `Plain` is the switch of `http_parser_execute` for all states that look at a single byte; the four
    states that run over many bytes (a header's name and value, a body and a chunk) are given here by
    what they do with one. `StepByte` and `Run` are the reference that the real loop, with its marks and
    bulk scans, is proved to refine. The parser is used as HttpServer uses it: requests only, not
    lenient, and callbacks that return 0. */
module HttpMachine {
  import opened Options
  import opened HttpMethods

  const MAX_HEADER_SIZE: nat := 80 * 1024
  const ULLONG_MAX: nat := 0xFFFF_FFFF_FFFF_FFFF
  /** `uint64_t` */
  type U64 = n: nat | n <= ULLONG_MAX

  const CR := '\r'
  const LF := '\n'

  datatype Stage =
    | Dead | StartReq | ReqMethod | ReqSpacesBeforeUrl
    | ReqSchema | ReqSchemaSlash | ReqSchemaSlashSlash | ReqServerStart | ReqServer | ReqServerWithAt
    | ReqPath | ReqQueryStringStart | ReqQueryString
    | ReqHttpStart | ReqHttpH | ReqHttpHT | ReqHttpHTT | ReqHttpHTTP | ReqHttpI | ReqHttpIC
    | ReqHttpMajor | ReqHttpDot | ReqHttpMinor | ReqHttpEnd | ReqLineAlmostDone
    | HeaderFieldStart | HeaderField | HeaderValueDiscardWs | HeaderValueDiscardWsAlmostDone
    | HeaderValueDiscardLws | HeaderValueStart | HeaderValue | HeaderValueLws | HeaderAlmostDone
    | ChunkSizeStart | ChunkSize | ChunkParameters | ChunkSizeAlmostDone
    | HeadersAlmostDone | HeadersDone
    | ChunkData | ChunkDataAlmostDone | ChunkDataDone
    | BodyIdentity | MessageDone

  datatype HeaderState =
    | General | C | CO | CON
    | MatchingConnection | MatchingProxyConnection | MatchingContentLength | MatchingTransferEncoding
    | MatchingUpgrade
    | Connection | ContentLength | ContentLengthNum | ContentLengthWs | TransferEncoding | Upgrade
    | TransferEncodingTokenStart | TransferEncodingMatchingChunked | TransferEncodingToken
    | ConnectionMatchingKeepAlive | ConnectionMatchingClose
    | TransferEncodingChunked | ConnectionKeepAlive | ConnectionClose

  datatype Flags = Flags(
    chunked: bool, keepAlive: bool, close: bool, trailing: bool, upgrade: bool, contentLength: bool)

  const NO_FLAGS := Flags(false, false, false, false, false, false)

  /** The fields of `http_parser`. `nread` stands for the field and the local variable that caches it. */
  datatype Fields = Fields(
    stage: Stage, headerState: HeaderState, index: nat, flags: Flags, usesTransferEncoding: bool,
    contentLength: U64, nread: nat, major: nat, minor: nat, method_: nat, upgrade: bool)

  /** `http_parser_init` */
  const INITIAL := Fields(StartReq, General, 0, NO_FLAGS, false, 0, 0, 0, 0, 0, false)

  datatype Errno =
    | HEADER_OVERFLOW | CLOSED_CONNECTION | INVALID_VERSION | INVALID_METHOD | INVALID_URL | LF_EXPECTED
    | INVALID_HEADER_TOKEN | INVALID_CONTENT_LENGTH | UNEXPECTED_CONTENT_LENGTH | INVALID_CHUNK_SIZE
    | INVALID_CONSTANT | STRICT | INVALID_TRANSFER_ENCODING | INVALID_EOF_STATE

  /** Why parsing stops: an error, another protocol from here on, or an assertion that fails. */
  datatype Halt = Error(errno: Errno) | Upgraded | Aborted

  datatype Kind = Url | Field | Value | Body

  datatype Event =
    | MessageBegin
    | Data(kind: Kind, bytes: string)
    | HeadersComplete(method_: nat, major: nat, minor: nat, flags: Flags, upgrade: bool)
    | MessageComplete

  // ---------------------------------------------------------------- characters

  function Lower(c: char): char {
    if c < 128 as char && (c as int / 32) % 2 == 0 then (c as int + 32) as char else c
  }

  predicate IsAlpha(c: char) {
    'a' <= Lower(c) <= 'z'
  }

  predicate IsNum(c: char) {
    '0' <= c <= '9'
  }

  predicate IsUserinfoChar(c: char) {
    IsAlpha(c) || IsNum(c) || c in "-_.!~*'()%;:&=+$,"
  }

  predicate IsUrlChar(c: char) {
    '!' <= c <= '~' && c != '#' && c != '?'
  }

  /** The table `tokens`: it maps letters to lower case, and 0 stands for no token. */
  predicate IsToken(c: char) {
    IsAlpha(c) || IsNum(c) || c in "!#$%&'*+-.^_`|~"
  }

  predicate IsHeaderChar(c: char) {
    c == CR || c == LF || c == '\t' || (c as int > 31 && c as int != 127)
  }

  /** The table `unhex`. Only its first half is initialised: bytes from 128 on count as 0. */
  function Unhex(c: char): (v: int)
    ensures -1 <= v < 16
  {
    if '0' <= c <= '9' then c as int - '0' as int
    else if 'a' <= c <= 'f' then c as int - 'a' as int + 10
    else if 'A' <= c <= 'F' then c as int - 'A' as int + 10
    else if c as int >= 128 then 0 else -1
  }

  // ---------------------------------------------------------------- request line

  function ParseUrlChar(s: Stage, c: char): Stage {
    if c in " \r\n\t" || c as int == 12 then Dead
    else
      match s
      case ReqSpacesBeforeUrl => if c == '/' || c == '*' then ReqPath else if IsAlpha(c) then ReqSchema else Dead
      case ReqSchema => if IsAlpha(c) then s else if c == ':' then ReqSchemaSlash else Dead
      case ReqSchemaSlash => if c == '/' then ReqSchemaSlashSlash else Dead
      case ReqSchemaSlashSlash => if c == '/' then ReqServerStart else Dead
      case ReqServerWithAt => if c == '@' then Dead else ServerChar(c)
      case ReqServerStart => ServerChar(c)
      case ReqServer => ServerChar(c)
      case ReqPath => if IsUrlChar(c) then s else if c == '?' then ReqQueryStringStart else Dead
      case ReqQueryStringStart => if IsUrlChar(c) || c == '?' then ReqQueryString else Dead
      case ReqQueryString => if IsUrlChar(c) || c == '?' then ReqQueryString else Dead
      case _ => Dead
  }

  function ServerChar(c: char): Stage {
    if c == '/' then ReqPath
    else if c == '?' then ReqQueryStringStart
    else if c == '@' then ReqServerWithAt
    else if IsUserinfoChar(c) || c == '[' || c == ']' then ReqServer
    else Dead
  }

  // ---------------------------------------------------------------- the switch

  datatype Next = Done | Again | Leave(halt: Halt)

  /** What one case of the switch does: the fields after it, the mark it sets, the marked data that it
      hands to the callback (up to the current byte), the other callback it makes, and how it goes on. */
  datatype Act = Act(f: Fields, mark: Option<Kind>, flush: Option<Kind>, note: Option<Event>, next: Next)

  function Go(f: Fields): Act {
    Act(f, None, None, None, Done)
  }

  function To(f: Fields, s: Stage): Act {
    Go(f.(stage := s))
  }

  function Fail(f: Fields, e: Errno): Act {
    Act(f, None, None, None, Leave(Error(e)))
  }

  /** `CROW_STRICT_CHECK` */
  function Expect(f: Fields, ok: bool, s: Stage, e: Errno): Act {
    if ok then To(f, s) else Fail(f, e)
  }

  function NewMessage(f: Fields): Act {
    Act(f.(stage := StartReq), None, None, Some(MessageComplete), Done)
  }

  /** `on_message_begin` also clears the version. */
  function Begin(f: Fields, c: char): Act {
    var g := f.(flags := NO_FLAGS, usesTransferEncoding := false, contentLength := ULLONG_MAX);
    match FirstMethod(c)
    case Some(m) =>
      Act(g.(method_ := m, index := 1, stage := ReqMethod, major := 0, minor := 0), None, None, Some(MessageBegin), Done)
    case None => Fail(g, INVALID_METHOD)
  }

  function MethodByte(f: Fields, c: char): Act {
    var g := f.(index := (f.index + 1) % 32);
    if c == '\0' then Fail(f, INVALID_METHOD)
    else if c == ' ' && MethodChar(f.method_, f.index) == '\0' then To(g, ReqSpacesBeforeUrl)
    else if c == MethodChar(f.method_, f.index) then Go(g)
    else if 'A' <= c <= 'Z' || c == '-' then
      match OtherMethod(f.method_, f.index, c)
      case Some(m) => Go(g.(method_ := m))
      case None => Fail(f, INVALID_METHOD)
    else Fail(f, INVALID_METHOD)
  }

  function FirstUrlByte(f: Fields, c: char): Act {
    if c == ' ' then Go(f)
    else
      var s := ParseUrlChar(if f.method_ == CONNECT then ReqServerStart else f.stage, c);
      if s == Dead then Fail(f, INVALID_URL) else Act(f.(stage := s), Some(Url), None, None, Done)
  }

  function UrlByte(f: Fields, c: char): Act {
    if c == ' ' && UrlMayEnd(f.stage) then Act(f.(stage := ReqHttpStart), None, Some(Url), None, Done)
    else if (c == CR || c == LF) && UrlMayEnd(f.stage) then
      if f.method_ != GET then Fail(f.(stage := Dead), INVALID_VERSION)
      else Act(f.(major := 0, minor := 9, stage := if c == CR then ReqLineAlmostDone else HeaderFieldStart),
               None, Some(Url), None, Done)
    else
      var s := ParseUrlChar(f.stage, c);
      if s == Dead then Fail(f, INVALID_URL) else To(f, s)
  }

  predicate UrlMayEnd(s: Stage) {
    s == ReqServer || s == ReqServerWithAt || s == ReqPath || s == ReqQueryStringStart || s == ReqQueryString
  }

  function RequestLine(f: Fields, c: char): Act
    requires !Bulk(f.stage) && !InHeaders(f.stage) && !InChunks(f.stage)
  {
    match f.stage
    case Dead => if c == CR || c == LF then Go(f) else Fail(f, CLOSED_CONNECTION)
    case StartReq => if c == CR || c == LF then Go(f) else Begin(f, c)
    case ReqMethod => MethodByte(f, c)
    case ReqSpacesBeforeUrl => FirstUrlByte(f, c)
    case ReqHttpStart =>
      if c == ' ' then Go(f) else if c == 'H' then To(f, ReqHttpH)
      else if c == 'I' && f.method_ == SOURCE then To(f, ReqHttpI) else Fail(f, INVALID_CONSTANT)
    case ReqHttpH => Expect(f, c == 'T', ReqHttpHT, STRICT)
    case ReqHttpHT => Expect(f, c == 'T', ReqHttpHTT, STRICT)
    case ReqHttpHTT => Expect(f, c == 'P', ReqHttpHTTP, STRICT)
    case ReqHttpI => Expect(f, c == 'C', ReqHttpIC, STRICT)
    case ReqHttpIC => Expect(f, c == 'E', ReqHttpHTTP, STRICT)
    case ReqHttpHTTP => Expect(f, c == '/', ReqHttpMajor, STRICT)
    case ReqHttpMajor => if IsNum(c) then To(f.(major := c as int - '0' as int), ReqHttpDot) else Fail(f, INVALID_VERSION)
    case ReqHttpDot => Expect(f, c == '.', ReqHttpMinor, INVALID_VERSION)
    case ReqHttpMinor => if IsNum(c) then To(f.(minor := c as int - '0' as int), ReqHttpEnd) else Fail(f, INVALID_VERSION)
    case ReqHttpEnd =>
      if c == CR then To(f, ReqLineAlmostDone) else Expect(f, c == LF, HeaderFieldStart, INVALID_VERSION)
    case ReqLineAlmostDone => Expect(f, c == LF, HeaderFieldStart, LF_EXPECTED)
    case _ => UrlByte(f, c)
  }

  function FieldStart(f: Fields, c: char): Act {
    if c == CR then To(f, HeadersAlmostDone)
    else if c == LF then Act(f.(stage := HeadersAlmostDone), None, None, None, Again)
    else if !IsToken(c) then Fail(f, INVALID_HEADER_TOKEN)
    else
      var l := Lower(c);
      var h := if l == 'c' then C else if l == 'p' then MatchingProxyConnection
               else if l == 't' then MatchingTransferEncoding else if l == 'u' then MatchingUpgrade else General;
      Act(f.(index := 0, stage := HeaderField, headerState := h), Some(Field), None, None, Done)
  }

  function ValueStart(f: Fields, ch: char): Act {
    var g, c := f.(stage := HeaderValue, index := 0), Lower(ch);
    match f.headerState
    case Upgrade => Act(g.(flags := f.flags.(upgrade := true), headerState := General), Some(Value), None, None, Done)
    case TransferEncoding =>
      Act(g.(headerState := if c == 'c' then TransferEncodingMatchingChunked else TransferEncodingToken),
          Some(Value), None, None, Done)
    case TransferEncodingTokenStart => Act(g, Some(Value), None, None, Done)
    case ContentLength =>
      if !IsNum(ch) then Fail(g, INVALID_CONTENT_LENGTH)
      else if f.flags.contentLength then Fail(g, UNEXPECTED_CONTENT_LENGTH)
      else Act(g.(flags := f.flags.(contentLength := true), contentLength := ch as int - '0' as int,
                  headerState := ContentLengthNum), Some(Value), None, None, Done)
    case ContentLengthWs => Act(g, Some(Value), None, None, Done)
    case Connection =>
      Act(g.(headerState := if c == 'k' then ConnectionMatchingKeepAlive else if c == 'c' then ConnectionMatchingClose
                            else if c == ' ' || c == '\t' then Connection else General), Some(Value), None, None, Done)
    case _ => Act(g.(headerState := General), Some(Value), None, None, Done)
  }

  function ValueLws(f: Fields, c: char): Act {
    if c == ' ' || c == '\t' then
      Act(f.(stage := HeaderValueStart,
             headerState := if f.headerState == ContentLengthNum then ContentLengthWs else f.headerState),
          None, None, None, Again)
    else
      var flags := match f.headerState
                   case ConnectionKeepAlive => f.flags.(keepAlive := true)
                   case ConnectionClose => f.flags.(close := true)
                   case TransferEncodingChunked => f.flags.(chunked := true)
                   case _ => f.flags;
      Act(f.(stage := HeaderFieldStart, flags := flags), None, None, None, Again)
  }

  function HeadersEnd(f: Fields, c: char): Act {
    if c != LF then Fail(f, STRICT)
    else if f.flags.trailing then NewMessage(f)
    else if f.usesTransferEncoding && f.flags.contentLength then Fail(f, UNEXPECTED_CONTENT_LENGTH)
    else
      var g := f.(stage := HeadersDone, upgrade := f.flags.upgrade || f.method_ == CONNECT);
      Act(g, None, None, Some(HeadersComplete(g.method_, g.major, g.minor, g.flags, g.upgrade)), Again)
  }

  function BodyStart(f: Fields, c: char): Act {
    var g := f.(nread := 0);
    if c != LF then Fail(f, STRICT)
    else if f.upgrade then NewMessage(g).(next := Leave(Upgraded))
    else if f.flags.chunked then To(g, ChunkSizeStart)
    else if f.usesTransferEncoding then Fail(g, INVALID_TRANSFER_ENCODING)
    else if f.contentLength == 0 || f.contentLength == ULLONG_MAX then NewMessage(g)
    else To(g, BodyIdentity)
  }

  function Headers(f: Fields, c: char): Act
    requires InHeaders(f.stage)
  {
    match f.stage
    case HeaderFieldStart => FieldStart(f, c)
    case HeaderValueDiscardWs =>
      if c == ' ' || c == '\t' then Go(f)
      else if c == CR then To(f, HeaderValueDiscardWsAlmostDone)
      else if c == LF then To(f, HeaderValueDiscardLws)
      else ValueStart(f, c)
    case HeaderValueDiscardWsAlmostDone => Expect(f, c == LF, HeaderValueDiscardLws, STRICT)
    case HeaderValueDiscardLws =>
      if c == ' ' || c == '\t' then To(f, HeaderValueDiscardWs)
      else Act(f.(stage := HeaderFieldStart), Some(Value), Some(Value), None, Again)
    case HeaderValueStart => ValueStart(f, c)
    case HeaderAlmostDone => Expect(f, c == LF, HeaderValueLws, LF_EXPECTED)
    case HeaderValueLws => ValueLws(f, c)
    case HeadersAlmostDone => HeadersEnd(f, c)
    case _ => BodyStart(f, c)
  }

  function SizeByte(f: Fields, c: char): Act {
    var v := Unhex(c);
    if c == CR then To(f, ChunkSizeAlmostDone)
    else if v == -1 then if c == ';' || c == ' ' then To(f, ChunkParameters) else Fail(f, INVALID_CHUNK_SIZE)
    else if (ULLONG_MAX - 16) / 16 < f.contentLength then Fail(f, INVALID_CONTENT_LENGTH)
    else Go(f.(contentLength := f.contentLength * 16 + v))
  }

  /** The cases for chunks begin with the assertions of the source. */
  function Chunks(f: Fields, c: char): Act
    requires InChunks(f.stage)
  {
    if f.stage == MessageDone then NewMessage(f)
    else if !f.flags.chunked then Act(f, None, None, None, Leave(Aborted))
    else if f.stage == ChunkSizeStart then
      if f.nread != 1 then Act(f, None, None, None, Leave(Aborted))
      else if Unhex(c) == -1 then Fail(f, INVALID_CHUNK_SIZE)
      else To(f.(contentLength := Unhex(c)), ChunkSize)
    else if f.stage == ChunkSize then SizeByte(f, c)
    else if f.stage == ChunkParameters then if c == CR then To(f, ChunkSizeAlmostDone) else Go(f)
    else if f.stage == ChunkSizeAlmostDone then
      if c != LF then Fail(f, STRICT)
      else if f.contentLength == 0 then To(f.(nread := 0, flags := f.flags.(trailing := true)), HeaderFieldStart)
      else To(f.(nread := 0), ChunkData)
    else if f.stage == ChunkDataAlmostDone then
      if f.contentLength != 0 then Act(f, None, None, None, Leave(Aborted))
      else if c != CR then Fail(f, STRICT)
      else Act(f.(stage := ChunkDataDone), None, Some(Body), None, Done)
    else if c != LF then Fail(f, STRICT)
    else To(f.(nread := 0), ChunkSizeStart)
  }

  /** The states that run over many bytes at a time. */
  predicate Bulk(s: Stage) {
    s == HeaderField || s == HeaderValue || s == BodyIdentity || s == ChunkData
  }

  predicate InHeaders(s: Stage) {
    || s == HeaderFieldStart || s == HeaderValueDiscardWs || s == HeaderValueDiscardWsAlmostDone
    || s == HeaderValueDiscardLws || s == HeaderValueStart || s == HeaderAlmostDone || s == HeaderValueLws
    || s == HeadersAlmostDone || s == HeadersDone
  }

  predicate InChunks(s: Stage) {
    || s == ChunkSizeStart || s == ChunkSize || s == ChunkParameters || s == ChunkSizeAlmostDone
    || s == ChunkDataAlmostDone || s == ChunkDataDone || s == MessageDone
  }

  function Plain(f: Fields, c: char): Act
    requires !Bulk(f.stage)
  {
    if InHeaders(f.stage) then Headers(f, c) else if InChunks(f.stage) then Chunks(f, c) else RequestLine(f, c)
  }

  // ---------------------------------------------------------------- one byte of the bulk states

  /** The fields that a header's name and value change. */
  datatype Scan = Scan(headerState: HeaderState, index: nat, usesTransferEncoding: bool, contentLength: U64)

  function ScanOf(f: Fields): Scan {
    Scan(f.headerState, f.index, f.usesTransferEncoding, f.contentLength)
  }

  function WithScan(f: Fields, s: Scan): Fields {
    f.(headerState := s.headerState, index := s.index, usesTransferEncoding := s.usesTransferEncoding,
       contentLength := s.contentLength)
  }

  datatype Char = Ok(s: Scan) | Bad(halt: Halt)

  /** The next character of a header that is being compared with a known name. */
  function Matching(f: Scan, c: char, name: string, found: HeaderState, other: HeaderState): Scan {
    var i := (f.index + 1) % 32;
    f.(index := i,
       headerState := if i > |name| || c != (if i < |name| then name[i] else '\0') then other
                      else if i == |name| - 1 then found else f.headerState)
  }

  /** One token character of a header's name. */
  function FieldChar(f: Scan, ch: char): Char {
    var c, g := Lower(ch), f.(index := (f.index + 1) % 32);
    match f.headerState
    case General => Ok(f)
    case C => Ok(g.(headerState := if c == 'o' then CO else General))
    case CO => Ok(g.(headerState := if c == 'n' then CON else General))
    case CON =>
      Ok(g.(headerState := if c == 'n' then MatchingConnection else if c == 't' then MatchingContentLength else General))
    case MatchingConnection => Ok(Matching(f, c, "connection", Connection, General))
    case MatchingProxyConnection => Ok(Matching(f, c, "proxy-connection", Connection, General))
    case MatchingContentLength => Ok(Matching(f, c, "content-length", ContentLength, General))
    case MatchingTransferEncoding =>
      var m := Matching(f, c, "transfer-encoding", TransferEncoding, General);
      Ok(m.(usesTransferEncoding := f.usesTransferEncoding || m.headerState == TransferEncoding))
    case MatchingUpgrade => Ok(Matching(f, c, "upgrade", Upgrade, General))
    case Connection => Ok(if ch != ' ' then f.(headerState := General) else f)
    case ContentLength => Ok(if ch != ' ' then f.(headerState := General) else f)
    case TransferEncoding => Ok(if ch != ' ' then f.(headerState := General) else f)
    case Upgrade => Ok(if ch != ' ' then f.(headerState := General) else f)
    case _ => Bad(Aborted)
  }

  /** One digit of a content length, with the source's conservative test for overflow. */
  function LengthDigit(f: Scan, ch: char): Char {
    if !IsNum(ch) || (ULLONG_MAX - 10) / 10 < f.contentLength then Bad(Error(INVALID_CONTENT_LENGTH))
    else Ok(f.(headerState := ContentLengthNum, contentLength := f.contentLength * 10 + (ch as int - '0' as int)))
  }

  /** One character of a header's value, other than the end of the line. */
  function ValueChar(f: Scan, ch: char): Char {
    var c := Lower(ch);
    if !IsHeaderChar(ch) then Bad(Error(INVALID_HEADER_TOKEN))
    else
      match f.headerState
      case General => Ok(f)
      case Connection => Bad(Aborted)
      case TransferEncoding => Bad(Aborted)
      case ContentLength => if ch == ' ' then Ok(f) else LengthDigit(f, ch)
      case ContentLengthNum => if ch == ' ' then Ok(f.(headerState := ContentLengthWs)) else LengthDigit(f, ch)
      case ContentLengthWs => if ch == ' ' then Ok(f) else Bad(Error(INVALID_CONTENT_LENGTH))
      case TransferEncodingTokenStart =>
        Ok(f.(headerState := if c == 'c' then TransferEncodingMatchingChunked
                             else if IsToken(c) then TransferEncodingToken
                             else if c == ' ' || c == '\t' then TransferEncodingTokenStart else General))
      case TransferEncodingMatchingChunked =>
        Ok(Matching(f, c, "chunked", TransferEncodingChunked, TransferEncodingToken))
      case TransferEncodingToken =>
        Ok(if ch == ',' then f.(headerState := TransferEncodingTokenStart, index := 0) else f)
      case ConnectionMatchingKeepAlive => Ok(Matching(f, c, "keep-alive", ConnectionKeepAlive, General))
      case ConnectionMatchingClose => Ok(Matching(f, c, "close", ConnectionClose, General))
      case TransferEncodingChunked => Ok(if ch != ' ' then f.(headerState := TransferEncodingToken) else f)
      case ConnectionKeepAlive => Ok(if ch != ' ' then f.(headerState := General) else f)
      case ConnectionClose => Ok(if ch != ' ' then f.(headerState := General) else f)
      case _ => Ok(f.(headerState := General))
  }

  /** `content_length` before body bytes may be read. */
  predicate Readable(n: U64) {
    n != 0 && n != ULLONG_MAX
  }

  // ---------------------------------------------------------------- the reference

  /** What the callbacks do: they fold each event into a value of their own. */
  type Sink<!L> = (L, Event) -> L

  function PushNote<L>(push: Sink<L>, log: L, e: Option<Event>): L {
    match e
    case Some(note) => push(log, note)
    case None => log
  }

  /** The kind of data that a byte belongs to when the parser is in this state after it. */
  function Live(s: Stage): Option<Kind> {
    match s
    case ReqSchema => Some(Url)
    case ReqSchemaSlash => Some(Url)
    case ReqSchemaSlashSlash => Some(Url)
    case ReqServerStart => Some(Url)
    case ReqServer => Some(Url)
    case ReqServerWithAt => Some(Url)
    case ReqPath => Some(Url)
    case ReqQueryStringStart => Some(Url)
    case ReqQueryString => Some(Url)
    case HeaderField => Some(Field)
    case HeaderValue => Some(Value)
    case _ => None
  }

  /** States before the body, whose bytes count against the limit. */
  predicate InHeader(s: Stage) {
    s != ChunkData && s != ChunkDataAlmostDone && s != ChunkDataDone && s != BodyIdentity && s != MessageDone
  }

  datatype Machine<L> = Running(f: Fields, log: L) | Halted(halt: Halt)

  /** Looking at the same byte again leads to states of smaller rank. */
  function Rank(s: Stage): nat {
    match s
    case HeaderValue => 5
    case HeaderValueLws => 4
    case HeaderValueDiscardLws => 4
    case HeaderFieldStart => 3
    case HeaderValueStart => 3
    case HeadersAlmostDone => 2
    case HeadersDone => 1
    case BodyIdentity => 1
    case _ => 0
  }

  lemma AgainSinks(f: Fields, c: char)
    requires !Bulk(f.stage) && Plain(f, c).next == Again
    ensures Rank(Plain(f, c).f.stage) < Rank(f.stage) && InHeaders(f.stage)
  {
    if InChunks(f.stage) {
      ChunksGoOn(f, c);
    } else if !InHeaders(f.stage) {
      RequestLineGoesOn(f, c);
    } else {
      HeadersSink(f, c);
    }
  }

  lemma ChunksGoOn(f: Fields, c: char)
    requires InChunks(f.stage)
    ensures Chunks(f, c).next != Again
  {
  }

  lemma RequestLineGoesOn(f: Fields, c: char)
    requires !Bulk(f.stage) && !InHeaders(f.stage) && !InChunks(f.stage)
    ensures RequestLine(f, c).next != Again
  {
  }

  lemma HeadersSink(f: Fields, c: char)
    requires InHeaders(f.stage) && Headers(f, c).next == Again
    ensures Rank(Headers(f, c).f.stage) < Rank(f.stage)
  {
  }

  function Exec<L>(push: Sink<L>, f: Fields, log: L, c: char): Machine<L>
    decreases Rank(f.stage)
  {
    if f.stage == HeaderField then
      if IsToken(c) then Took(push, f, FieldChar(ScanOf(f), c), log, Field, c)
      else if c == ':' then Running(f.(stage := HeaderValueDiscardWs), log)
      else Halted(Error(INVALID_HEADER_TOKEN))
    else if f.stage == HeaderValue then
      if c == CR then Running(f.(stage := HeaderAlmostDone), log)
      else if c == LF then Exec(push, f.(stage := HeaderAlmostDone), log, c)
      else Took(push, f, ValueChar(ScanOf(f), c), log, Value, c)
    else if f.stage == BodyIdentity then
      if !Readable(f.contentLength) then Halted(Aborted)
      else
        var g, log' := f.(contentLength := f.contentLength - 1), push(log, Data(Body, [c]));
        if g.contentLength == 0 then Exec(push, g.(stage := MessageDone), log', c) else Running(g, log')
    else if f.stage == ChunkData then
      if !f.flags.chunked || !Readable(f.contentLength) then Halted(Aborted)
      else
        var g := f.(contentLength := f.contentLength - 1);
        Running(if g.contentLength == 0 then g.(stage := ChunkDataAlmostDone) else g, push(log, Data(Body, [c])))
    else
      var a := Plain(f, c);
      var log' := Noted(push, log, a);
      if a.next == Again then AgainSinks(f, c); Exec(push, a.f, log', c)
      else if a.next == Done then Running(a.f, Taken(push, log', a.f.stage, c))
      else Halted(a.next.halt)
  }

  /** What a case of the switch adds, apart from the byte itself. */
  function Noted<L>(push: Sink<L>, log: L, a: Act): L {
    PushNote(push, if a.mark.Some? && a.flush == a.mark then push(log, Data(a.mark.value, "")) else log, a.note)
  }

  function Taken<L>(push: Sink<L>, log: L, s: Stage, c: char): L {
    if Live(s).Some? then push(log, Data(Live(s).value, [c])) else log
  }

  function Took<L>(push: Sink<L>, f: Fields, r: Char, log: L, k: Kind, c: char): Machine<L> {
    match r
    case Ok(s) => Running(WithScan(f, s), push(log, Data(k, [c])))
    case Bad(halt) => Halted(halt)
  }

  /** One byte: it is counted first, then the switch is run on it. */
  function StepByte<L>(push: Sink<L>, m: Machine<L>, c: char): Machine<L> {
    match m
    case Halted(_) => m
    case Running(f, log) =>
      if !InHeader(f.stage) then Exec(push, f, log, c)
      else if f.nread + 1 > MAX_HEADER_SIZE then Halted(Error(HEADER_OVERFLOW))
      else Exec(push, f.(nread := f.nread + 1), log, c)
  }

  function Run<L>(push: Sink<L>, m: Machine<L>, data: string): Machine<L> {
    if data == "" then m else StepByte(push, Run(push, m, data[..|data| - 1]), data[|data| - 1])
  }
}
