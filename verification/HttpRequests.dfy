/** What Crow makes of the parser's callbacks (`HTTPParser` in parser.h), and why it does not matter how
    the bytes of a connection arrive. */
module HttpRequests {
  import opened Options
  import opened HttpMachine
  import opened HttpParser

  // ---------------------------------------------------------------- runs

  lemma {:induction false} RunSplit<L>(push: Sink<L>, m: Machine<L>, a: string, b: string)
    ensures Run(push, m, a + b) == Run(push, Run(push, m, a), b)
    decreases |b|
  {
    if b == "" {
      assert a + b == a;
    } else {
      var b0 := b[..|b| - 1];
      assert (a + b)[..|a + b| - 1] == a + b0 && (a + b)[|a + b| - 1] == b[|b| - 1];
      RunSplit(push, m, a, b0);
    }
  }

  lemma {:induction false} HaltedStays<L>(push: Sink<L>, m: Machine<L>, b: string)
    requires m.Halted?
    ensures Run(push, m, b) == m
    decreases |b|
  {
    if b != "" {
      HaltedStays(push, m, b[..|b| - 1]);
    }
  }

  function Flat(pieces: seq<string>): string {
    if pieces == [] then "" else pieces[0] + Flat(pieces[1..])
  }

  /** `feed`, called for one buffer after the other until the parser stops. Whatever the pieces are, the
      outcome depends on their concatenation only: the parser's fields, and everything the callbacks have
      seen. This holds for all callbacks to which two adjacent pieces of data are as good as one. */
  method Feed<L(!new)>(p: Parser<L>, pieces: seq<string>) returns (halt: Option<Halt>)
    requires p.Valid() && p.errno == None && forall k | k in pieces :: k != ""
    modifies p`f, p`errno, p`sink
    ensures match Run(p.push, Running(old(p.f), old(p.sink)), Flat(pieces))
            case Running(f, log) => halt == None && p.f == f && p.sink == log && p.Valid() && p.errno == None
            case Halted(_) => halt.Some?
  {
    halt := None;
    var i := 0;
    while i < |pieces|
      invariant i <= |pieces| && p.Valid() && p.errno == None && halt == None
      invariant Run(p.push, Running(old(p.f), old(p.sink)), Flat(pieces))
                == Run(p.push, Running(p.f, p.sink), Flat(pieces[i..]))
    {
      assert pieces[i..][1..] == pieces[i + 1..] && pieces[i] in pieces;
      RunSplit(p.push, Running(p.f, p.sink), pieces[i], Flat(pieces[i + 1..]));
      if Run(p.push, Running(p.f, p.sink), pieces[i]).Halted? {
        HaltedStays(p.push, Run(p.push, Running(p.f, p.sink), pieces[i]), Flat(pieces[i + 1..]));
      }
      var parsed;
      parsed, halt := p.Execute(pieces[i]);
      if halt != None {
        return;
      }
      i := i + 1;
    }
  }

  // ---------------------------------------------------------------- the sequence of events

  /** The events, with adjacent data of one kind joined. */
  function Push(log: seq<Event>, e: Event): seq<Event> {
    if e.Data? && log != [] && log[|log| - 1].Data? && log[|log| - 1].kind == e.kind
    then log[..|log| - 1] + [Data(e.kind, log[|log| - 1].bytes + e.bytes)]
    else log + [e]
  }

  const PUSH: Sink<seq<Event>> := (log, e) => Push(log, e)

  lemma EventsJoin()
    ensures Joins(PUSH)
  {
    forall l: seq<Event>, k: Kind, x: string, y: string | Joint(l, k, x, y)
      ensures PUSH(PUSH(l, Data(k, x)), Data(k, y)) == PUSH(l, Data(k, x + y))
    {
      if l != [] && l[|l| - 1].Data? && l[|l| - 1].kind == k {
        assert l[|l| - 1].bytes + x + y == l[|l| - 1].bytes + (x + y);
      }
    }
  }

  /** Two ways of cutting the same bytes give the same events, as long as the bytes are accepted. */
  method AnyPieces(pieces: seq<string>, others: seq<string>) returns (a: Parser<seq<Event>>, b: Parser<seq<Event>>)
    requires (forall k | k in pieces :: k != "") && (forall k | k in others :: k != "") && Flat(pieces) == Flat(others)
    ensures Run(PUSH, Running(INITIAL, []), Flat(pieces)).Running? ==>
              a.f == b.f && a.sink == b.sink && a.errno == b.errno == None
  {
    EventsJoin();
    a := new Parser(PUSH, []);
    b := new Parser(PUSH, []);
    var halt := Feed(a, pieces);
    halt := Feed(b, others);
  }

  // ---------------------------------------------------------------- HTTPParser

  datatype Request = Request(
    method_: nat, rawUrl: string, headers: seq<(string, string)>, body: string, major: nat, minor: nat,
    keepAlive: bool, closeConnection: bool, upgrade: bool)

  /** The fields of `HTTPParser`, and the requests it has handed to its handler. A string that has been
      moved from is empty. */
  datatype Builder = Builder(
    rawUrl: string, field: string, value: string, headers: seq<(string, string)>, body: string,
    inField: bool,            // header_building_state
    info: Option<Event>,      // what the parser knew when the headers were complete
    keepAlive: bool, closeConnection: bool,
    requests: seq<Request>)

  const EMPTY := Builder("", "", "", [], "", false, None, false, false, [])

  function OnUrl(b: Builder, bytes: string): Builder {
    b.(rawUrl := b.rawUrl + bytes)
  }

  function OnHeaderField(b: Builder, bytes: string): Builder {
    if b.inField then b.(field := b.field + bytes)
    else
      var c := if b.value != "" then b.(headers := b.headers + [(b.field, b.value)], value := "") else b;
      c.(field := bytes, inField := true)
  }

  function OnHeaderValue(b: Builder, bytes: string): Builder {
    if b.inField then b.(inField := false, value := bytes) else b.(value := b.value + bytes)
  }

  function OnBody(b: Builder, bytes: string): Builder {
    b.(body := b.body + bytes)
  }

  /** `set_connection_parameters` */
  function OnHeadersComplete(b: Builder, e: Event): Builder
    requires e.HeadersComplete?
  {
    var c := if b.field != "" then b.(headers := b.headers + [(b.field, b.value)], field := "", value := "") else b;
    c.(info := Some(e),
       keepAlive := if e.major == 1 && e.minor == 0 then e.flags.keepAlive else e.major == 1 && e.minor == 1,
       closeConnection := if e.major == 1 && e.minor == 0 then !e.flags.keepAlive
                          else e.major == 1 && e.minor == 1 && e.flags.close)
  }

  function OnMessageComplete(b: Builder): Builder {
    match b.info
    case Some(HeadersComplete(m, major, minor, flags, upgrade)) =>
      b.(requests := b.requests + [Request(m, b.rawUrl, b.headers, b.body, major, minor, b.keepAlive, b.closeConnection, upgrade)])
    case _ => b
  }

  /** `clear` */
  function OnMessageBegin(b: Builder): Builder {
    EMPTY.(requests := b.requests)
  }

  function Callback(b: Builder, e: Event): Builder {
    match e
    case MessageBegin => OnMessageBegin(b)
    case Data(Url, bytes) => OnUrl(b, bytes)
    case Data(Field, bytes) => OnHeaderField(b, bytes)
    case Data(Value, bytes) => OnHeaderValue(b, bytes)
    case Data(Body, bytes) => OnBody(b, bytes)
    case HeadersComplete(_, _, _, _, _) => OnHeadersComplete(b, e)
    case MessageComplete => OnMessageComplete(b)
  }

  const CALLBACKS: Sink<Builder> := (b, e) => Callback(b, e)

  /** The handler cannot tell where one piece of data ended and the next one began. */
  lemma CallbacksJoin()
    ensures Joins(CALLBACKS)
  {
    forall b: Builder, k: Kind, x: string, y: string | Joint(b, k, x, y)
      ensures CALLBACKS(CALLBACKS(b, Data(k, x)), Data(k, y)) == CALLBACKS(b, Data(k, x + y))
    {
      CallbackJoins(b, k, x, y);
    }
  }

  lemma CallbackJoins(b: Builder, k: Kind, x: string, y: string)
    ensures Callback(Callback(b, Data(k, x)), Data(k, y)) == Callback(b, Data(k, x + y))
  {
    match k
    case Url => assert b.rawUrl + x + y == b.rawUrl + (x + y);
    case Field => assert b.field + x + y == b.field + (x + y);
    case Value => assert b.value + x + y == b.value + (x + y);
    case Body => assert b.body + x + y == b.body + (x + y);
  }

  /** What the callbacks gather for a request (`raw_url`, headers, body, version, flags) does not depend on how
      the network cuts the bytes. The handler's `url` is `raw_url` cut at `qs_point`; that does depend on it,
      see HttpQuery.dfy. */
  method SameRequests(pieces: seq<string>, others: seq<string>) returns (a: seq<Request>, b: seq<Request>)
    requires (forall k | k in pieces :: k != "") && (forall k | k in others :: k != "") && Flat(pieces) == Flat(others)
    ensures Run(CALLBACKS, Running(INITIAL, EMPTY), Flat(pieces)).Running? ==> a == b
  {
    CallbacksJoin();
    var p := new Parser(CALLBACKS, EMPTY);
    var q := new Parser(CALLBACKS, EMPTY);
    var halt := Feed(p, pieces);
    halt := Feed(q, others);
    a, b := p.sink.requests, q.sink.requests;
  }
}
