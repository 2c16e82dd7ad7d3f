/** The requests that a handler gets from the text of a connection. */
module HttpServed {
  import opened Options
  import opened HttpText
  import opened HttpMethods
  import opened HttpMachine
  import opened HttpParser
  import opened HttpRequests
  import opened HttpBodies
  import opened HttpHeaders
  import opened HttpMessages
  import opened HttpRequestLine

  // ---------------------------------------------------------------- what a request is to be

  /** A pair is added when the next name begins, and only if its value is not empty. */
  function Kept(hs: seq<Header>): seq<(string, string)> {
    if hs == [] then []
    else
      var h := hs[|hs| - 1];
      Kept(hs[..|hs| - 1]) + if h.value != "" then [(h.name, h.value)] else []
  }

  /** The last pair of a head is added at its end, whatever its value. */
  function Pairs(hs: seq<Header>): seq<(string, string)> {
    if hs == [] then [] else Kept(hs[..|hs| - 1]) + [(hs[|hs| - 1].name, hs[|hs| - 1].value)]
  }

  /** The last pair of a trailer is never added. */
  function TrailerPairs(p: Payload): seq<(string, string)> {
    match p
    case Chunked(_, _, trailer) => if trailer == [] then [] else Kept(trailer[..|trailer| - 1])
    case _ => []
  }

  function BodyOf(p: Payload): string {
    match p
    case NoBody => ""
    case Sized(bytes) => bytes
    case Chunked(chunks, _, _) => AllData(chunks)
  }

  /** The request that the text stands for. In version 1.0 a connection is kept only if a line says so, in
      version 1.1 it is closed only if one says so, and in others neither. */
  function RequestOf(m: Message): Request
    requires WellFormed(m)
  {
    var first, second := m.major == '1' && m.minor == '0', m.major == '1' && m.minor == '1';
    Request(m.method_, TargetText(m.target), Pairs(m.headers) + TrailerPairs(m.payload), BodyOf(m.payload),
            DigitValue(m.major), DigitValue(m.minor),
            if first then Exists(m.headers, KeepsAlive) else second,
            if first then !Exists(m.headers, KeepsAlive) else second && Exists(m.headers, Closes),
            false)
  }

  // ---------------------------------------------------------------- the callbacks over header lines

  /** The handler's fields after some header lines: the last name and value wait for what comes next. */
  function AfterLines(b: Builder, hs: seq<Header>): Builder {
    if hs == [] then b
    else
      b.(headers := b.headers + Kept(hs[..|hs| - 1]), field := hs[|hs| - 1].name, value := hs[|hs| - 1].value, inField := false)
  }

  lemma OneLine(b: Builder, name: string, value: string)
    requires !b.inField
    ensures CALLBACKS(CALLBACKS(b, Data(Field, name)), Data(Value, value))
            == b.(headers := b.headers + (if b.value != "" then [(b.field, b.value)] else []),
                  field := name, value := value, inField := false)
  {
    assert b.value == "" ==> b.headers + [] == b.headers;
  }

  lemma {:induction false} LinesBuilt(b: Builder, hs: seq<Header>)
    requires !b.inField && b.value == ""
    ensures Fold(CALLBACKS, b, HeadersOf(hs)) == AfterLines(b, hs)
    decreases |hs|
  {
    if hs != [] {
      var init, h := hs[..|hs| - 1], hs[|hs| - 1];
      LinesBuilt(b, init);
      FoldTwo(CALLBACKS, b, HeadersOf(init), Data(Field, h.name), Data(Value, h.value));
      OneLine(AfterLines(b, init), h.name, h.value);
      KeptLast(b, init);
    }
  }

  lemma KeptLast(b: Builder, hs: seq<Header>)
    requires b.value == ""
    ensures var c := AfterLines(b, hs);
            c.headers + (if c.value != "" then [(c.field, c.value)] else []) == b.headers + Kept(hs)
  {
    if hs != [] {
      assert b.headers + (Kept(hs[..|hs| - 1]) + (if hs[|hs| - 1].value != "" then [(hs[|hs| - 1].name, hs[|hs| - 1].value)] else []))
          == b.headers + Kept(hs[..|hs| - 1]) + (if hs[|hs| - 1].value != "" then [(hs[|hs| - 1].name, hs[|hs| - 1].value)] else []);
    }
  }

  // ---------------------------------------------------------------- a whole request

  /** After the head. */
  function AfterHeadOf(b: Builder, m: Message): Builder
    requires WellFormed(m)
  {
    var r := RequestOf(m);
    EMPTY.(requests := b.requests, rawUrl := r.rawUrl, headers := Pairs(m.headers), info := Some(Announcement(m)),
           keepAlive := r.keepAlive, closeConnection := r.closeConnection)
  }

  lemma HeadBuilt(b: Builder, m: Message)
    requires WellFormed(m)
    ensures Fold(CALLBACKS, b, HeadEvents(m)) == AfterHeadOf(b, m)
  {
    var u := TargetText(m.target);
    var c := EMPTY.(requests := b.requests, rawUrl := u);
    HeadFolds(CALLBACKS, b, m);
    assert Opened(CALLBACKS, b, m) == c by {
      assert "" + u == u;
    }
    LinesBuilt(c, m.headers);
    EndOfHead(c, m);
  }

  lemma EndOfHead(c: Builder, m: Message)
    requires WellFormed(m) && c == EMPTY.(requests := c.requests, rawUrl := TargetText(m.target))
    ensures CALLBACKS(AfterLines(c, m.headers), Announcement(m)) == AfterHeadOf(c, m)
  {
    if m.headers != [] {
      assert WellFormedHeader(m.headers[|m.headers| - 1]);
      assert [] + Kept(m.headers[..|m.headers| - 1]) == Kept(m.headers[..|m.headers| - 1]);
    }
  }

  /** The body and the trailer are added, and nothing else has changed. */
  ghost predicate WithBody(b: Builder, c: Builder, m: Message)
    requires WellFormed(m)
  {
    && c.requests == b.requests && c.rawUrl == b.rawUrl && c.info == b.info && c.keepAlive == b.keepAlive
    && c.closeConnection == b.closeConnection
    && c.body == BodyOf(m.payload) && c.headers == Pairs(m.headers) + TrailerPairs(m.payload)
  }

  lemma BodyBuilt(b: Builder, m: Message)
    requires WellFormed(m) && b == AfterHeadOf(b, m)
    ensures WithBody(b, Fold(CALLBACKS, b, BodyEvents(m.payload)), m)
  {
    match m.payload
    case NoBody =>
      assert b.headers + [] == b.headers;
    case Sized(bytes) =>
      assert b.headers + [] == b.headers;
      SizedBuilt(b, bytes);
    case Chunked(chunks, _, trailer) =>
      ChunksBuilt(b, chunks, trailer);
      TrailerBuilt(b, m, b.(body := AllData(chunks)), trailer);
  }

  lemma SizedBuilt(b: Builder, bytes: string)
    requires b.body == ""
    ensures Fold(CALLBACKS, b, if bytes == "" then [] else [Data(Body, bytes)]) == b.(body := bytes)
  {
    if bytes != "" {
      FoldOne(CALLBACKS, b, Data(Body, bytes));
      assert "" + bytes == bytes;
    }
  }

  lemma TrailerBuilt(b: Builder, m: Message, c: Builder, trailer: seq<Header>)
    requires WellFormed(m) && m.payload.Chunked? && trailer == m.payload.trailer && b == AfterHeadOf(b, m)
    requires c == b.(body := BodyOf(m.payload))
    ensures WithBody(b, AfterLines(c, trailer), m)
  {
    assert b.headers + [] == b.headers;
  }

  lemma ChunksBuilt(b: Builder, chunks: seq<Chunk>, trailer: seq<Header>)
    requires !b.inField && b.value == "" && b.body == ""
    ensures Fold(CALLBACKS, b, (if chunks == [] then [] else [Data(Body, AllData(chunks))]) + HeadersOf(trailer))
            == AfterLines(b.(body := AllData(chunks)), trailer)
  {
    var body := if chunks == [] then [] else [Data(Body, AllData(chunks))];
    FoldSplit(CALLBACKS, b, body, HeadersOf(trailer));
    if chunks != [] {
      FoldOne(CALLBACKS, b, Data(Body, AllData(chunks)));
      assert "" + AllData(chunks) == AllData(chunks);
    }
    LinesBuilt(b.(body := AllData(chunks)), trailer);
  }

  /** Over the events of a request, the callbacks hand over exactly this one request. */
  lemma RequestBuilt(b: Builder, m: Message)
    requires WellFormed(m) && !Upgrading(m)
    ensures Fold(CALLBACKS, b, Events(m)).requests == b.requests + [RequestOf(m)]
  {
    EventsFold(CALLBACKS, b, m);
    HeadBuilt(b, m);
    BodyBuilt(AfterHeadOf(b, m), m);
  }

  // ---------------------------------------------------------------- a connection

  function Texts(ms: seq<Message>): string
    requires forall i | 0 <= i < |ms| :: WellFormed(ms[i])
  {
    if ms == [] then ""
    else
      assert WellFormed(ms[|ms| - 1]);
      Texts(ms[..|ms| - 1]) + MessageText(ms[|ms| - 1])
  }

  function RequestsOf(ms: seq<Message>): seq<Request>
    requires forall i | 0 <= i < |ms| :: WellFormed(ms[i])
  {
    if ms == [] then []
    else
      assert WellFormed(ms[|ms| - 1]);
      RequestsOf(ms[..|ms| - 1]) + [RequestOf(ms[|ms| - 1])]
  }

  /** The requests follow each other: each is well formed and stays with the protocol, and its head, counted
      together with the trailer before it, is within the limit. */
  predicate Follow(ms: seq<Message>) {
    && (forall i | 0 <= i < |ms| :: WellFormed(ms[i]) && !Upgrading(ms[i]))
    && (forall i | 0 <= i < |ms| :: WithinLimit(ms, i))
  }

  predicate WithinLimit(ms: seq<Message>, i: nat)
    requires i < |ms|
  {
    ms[i].method_ < |METHODS| && (if i == 0 then 0 else Counted(ms[i - 1])) + |HeadText(ms[i])| <= MAX_HEADER_SIZE
  }

  lemma FollowBefore(ms: seq<Message>)
    requires ms != [] && Follow(ms)
    ensures Follow(ms[..|ms| - 1]) && WellFormed(ms[|ms| - 1]) && !Upgrading(ms[|ms| - 1]) && WithinLimit(ms, |ms| - 1)
  {
    var init := ms[..|ms| - 1];
    forall i | 0 <= i < |init| ensures WellFormed(init[i]) && !Upgrading(init[i]) {
      assert WellFormed(ms[i]);
    }
    forall i | 0 <= i < |init| ensures WithinLimit(init, i) {
      assert WithinLimit(ms, i);
    }
  }

  /** The parser has read these requests, and the handler has got them. */
  ghost predicate Got(ms: seq<Message>, g: Fields, b: Builder)
    requires Follow(ms)
  {
    && g.stage == StartReq && g.nread == (if ms == [] then 0 else Counted(ms[|ms| - 1])) && b.requests == RequestsOf(ms)
    && Leads(CALLBACKS, Running(INITIAL, EMPTY), Texts(ms), g, b)
  }

  lemma {:induction false} ConnectionRead(ms: seq<Message>) returns (g: Fields, b: Builder)
    requires Follow(ms)
    ensures Got(ms, g, b)
    decreases |ms|
  {
    if ms == [] {
      g, b := INITIAL, EMPTY;
      LeadsMeans(CALLBACKS, Running(INITIAL, EMPTY), "", g, b);
    } else {
      FollowBefore(ms);
      var g1, b1 := ConnectionRead(ms[..|ms| - 1]);
      g, b := OneMore(ms, g1, b1);
    }
  }

  lemma OneMore(ms: seq<Message>, g1: Fields, b1: Builder) returns (g: Fields, b: Builder)
    requires ms != [] && Follow(ms) && Follow(ms[..|ms| - 1]) && Got(ms[..|ms| - 1], g1, b1)
    ensures Got(ms, g, b)
  {
    var init, m := ms[..|ms| - 1], ms[|ms| - 1];
    FollowBefore(ms);
    assert |init| > 0 ==> ms[|ms| - 2] == init[|init| - 1];
    g, b := NextRequest(g1, b1, m);
    LeadsMore(CALLBACKS, Running(INITIAL, EMPTY), Texts(init), MessageText(m), g1, b1, g, b);
  }

  lemma NextRequest(f: Fields, b: Builder, m: Message) returns (g: Fields, c: Builder)
    requires f.stage == StartReq && WellFormed(m) && !Upgrading(m) && f.nread + |HeadText(m)| <= MAX_HEADER_SIZE
    ensures g.stage == StartReq && g.nread == Counted(m) && c.requests == b.requests + [RequestOf(m)]
    ensures Leads(CALLBACKS, Running(f, b), MessageText(m), g, c)
  {
    CallbacksJoin();
    c := Fold(CALLBACKS, b, Events(m));
    g := MessageRead(CALLBACKS, f, b, m);
    LeadsMeans(CALLBACKS, Running(f, b), MessageText(m), g, c);
    RequestBuilt(b, m);
  }

  /** The parser with its callbacks: from the text of a connection, in any pieces, the handler gets exactly the
      requests that are written there, in order. */
  method Serve(ghost ms: seq<Message>, pieces: seq<string>) returns (requests: seq<Request>)
    requires Follow(ms) && (forall k | k in pieces :: k != "") && Flat(pieces) == Texts(ms)
    ensures requests == RequestsOf(ms)
  {
    ghost var g, b := ConnectionRead(ms);
    LeadsMeans(CALLBACKS, Running(INITIAL, EMPTY), Texts(ms), g, b);
    CallbacksJoin();
    var p := new Parser(CALLBACKS, EMPTY);
    var halt := Feed(p, pieces);
    requests := p.sink.requests;
  }
}
