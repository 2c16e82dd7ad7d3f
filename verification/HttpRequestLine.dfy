/** The first line of a request: the method's name, the target and the version. */
module HttpRequestLine {
  import opened Options
  import opened HttpText
  import opened HttpMethods
  import opened HttpMachine
  import opened HttpParser
  import opened HttpRequests
  import opened HttpBodies
  import opened HttpSafety

  // ---------------------------------------------------------------- pieces of a run

  /** The text leads to these fields and this log. */
  ghost predicate Leads<L>(push: Sink<L>, m: Machine<L>, text: string, g: Fields, log: L) {
    forall k {:trigger Look(k)} :: Look(k) ==> Run(push, m, text) == Running(g, log)
  }

  lemma LeadsMeans<L>(push: Sink<L>, m: Machine<L>, text: string, g: Fields, log: L)
    ensures Leads(push, m, text, g, log) <==> Run(push, m, text) == Running(g, log)
  {
    assert Look(0);
  }

  lemma LeadsMore<L>(push: Sink<L>, m: Machine<L>, a: string, b: string, g: Fields, log: L, g': Fields, log': L)
    requires Leads(push, m, a, g, log) && Leads(push, Running(g, log), b, g', log')
    ensures Leads(push, m, a + b, g', log')
  {
    LeadsMeans(push, m, a, g, log);
    LeadsMeans(push, Running(g, log), b, g', log');
    LeadsMeans(push, m, a + b, g', log');
    RunSplit(push, m, a, b);
  }

  lemma LeadsOne<L(!new)>(push: Sink<L>, f: Fields, log: L, c: char, g: Fields, log': L)
    requires StepByte(push, Running(f, log), c) == Running(g, log')
    ensures Leads(push, Running(f, log), [c], g, log')
  {
    RunOne(push, Running(f, log), [c]);
    LeadsMeans(push, Running(f, log), [c], g, log');
  }

  /** A byte of the request line that the callbacks do not see. */
  lemma Silent<L(!new)>(push: Sink<L>, f: Fields, f1: Fields, log: L, c: char, g: Fields)
    requires InHeader(f.stage) && !Bulk(f.stage) && f.nread < MAX_HEADER_SIZE && Live(g.stage) == None
    requires f1 == f.(nread := f.nread + 1) && Plain(f1, c) == Go(g)
    ensures Leads(push, Running(f, log), [c], g, log)
  {
    CountedStep(push, f, f1, log, c);
    ExecPlain(push, f1, log, c);
    LeadsOne(push, f, log, c, g, log);
  }

  // ---------------------------------------------------------------- the method

  /** After `i` characters of a method's name. */
  function Begun(f: Fields, guess: nat, i: nat): Fields {
    f.(stage := ReqMethod, flags := NO_FLAGS, usesTransferEncoding := false, contentLength := ULLONG_MAX, method_ := guess,
       index := i, major := 0, minor := 0, nread := f.nread + i)
  }

  lemma MethodBegins<L(!new)>(push: Sink<L>, f: Fields, log: L, c: char)
    requires f.stage == StartReq && f.nread < MAX_HEADER_SIZE && FirstMethod(c).Some?
    ensures Leads(push, Running(f, log), [c], Begun(f, FirstMethod(c).value, 1), push(log, MessageBegin))
  {
    var f1 := f.(nread := f.nread + 1);
    CountedStep(push, f, f1, log, c);
    assert Plain(f1, c) == Begin(f1, c);
    ExecPlain(push, f1, log, c);
    LeadsOne(push, f, log, c, Begun(f, FirstMethod(c).value, 1), push(log, MessageBegin));
  }

  /** The name of the method ends here. */
  ghost predicate NameEnds(m: nat, n: nat) {
    forall k {:trigger Look(k)} :: Look(k) ==> MethodChar(m, n) == '\0'
  }

  /** The next character of a name leads to method `next`. */
  ghost predicate Next(guess: nat, i: nat, c: char, next: nat) {
    && ('A' <= c <= 'Z' || c == '-')
    && forall k {:trigger Look(k)} :: Look(k) ==>
         if c == MethodChar(guess, i) then next == guess else OtherMethod(guess, i, c) == Some(next)
  }

  /** The rest of a name leads to its method. */
  ghost predicate Rest(name: string, i: nat, guess: nat, m: nat)
    requires i <= |name|
  {
    forall k {:trigger Look(k)} :: Look(k) ==> Guesses(name, i, guess, m)
  }

  lemma RestEnds(name: string, guess: nat, m: nat)
    requires Rest(name, |name|, guess, m)
    ensures guess == m && NameEnds(m, |name|)
  {
    assert Look(0);
  }

  lemma RestGoesOn(name: string, i: nat, guess: nat, m: nat) returns (next: nat)
    requires i < |name| && Rest(name, i, guess, m)
    ensures Next(guess, i, name[i], next) && Rest(name, i + 1, next, m)
  {
    assert Look(0);
    next := if name[i] == MethodChar(guess, i) then guess else OtherMethod(guess, i, name[i]).value;
  }

  lemma InMethod(f: Fields, c: char, guess: nat, i: nat, next: nat, g: Fields)
    requires f.stage == ReqMethod && f.method_ == guess && f.index == i && 0 < i < 31 && Next(guess, i, c, next)
    requires g == f.(method_ := next, index := i + 1)
    ensures Plain(f, c) == Go(g)
  {
    PlainMethod(f, c);
    var x, other := MethodChar(guess, i), OtherMethod(guess, i, c);
    assert Look(0);
    MethodLetter(f, c, x, other);
  }

  /** The case of the switch, in terms of what it compares with. */
  lemma MethodLetter(f: Fields, c: char, x: char, other: Option<nat>)
    requires x == MethodChar(f.method_, f.index) && other == OtherMethod(f.method_, f.index, c) && 0 < f.index < 31
    requires 'A' <= c <= 'Z' || c == '-'
    ensures c == x ==> MethodByte(f, c) == Go(f.(index := f.index + 1))
    ensures c != x && other.Some? ==> MethodByte(f, c) == Go(f.(index := f.index + 1, method_ := other.value))
  {
  }

  lemma AfterMethod(f: Fields, m: nat, n: nat, g: Fields)
    requires f.stage == ReqMethod && f.method_ == m && f.index == n && 0 < n < 31 && NameEnds(m, n)
    requires g == f.(stage := ReqSpacesBeforeUrl, index := n + 1)
    ensures Plain(f, ' ') == Go(g)
  {
    PlainMethod(f, ' ');
    assert Look(0);
    MethodSpace(f, MethodChar(m, n));
  }

  lemma MethodSpace(f: Fields, x: char)
    requires x == MethodChar(f.method_, f.index) && x == '\0' && 0 < f.index < 31
    ensures MethodByte(f, ' ') == Go(f.(stage := ReqSpacesBeforeUrl, index := f.index + 1))
  {
  }

  lemma PlainMethod(f: Fields, c: char)
    requires f.stage == ReqMethod
    ensures Plain(f, c) == MethodByte(f, c)
  {
  }

  lemma MethodGoesOn<L(!new)>(push: Sink<L>, f: Fields, log: L, guess: nat, i: nat, c: char, next: nat)
    requires 0 < i < 31 && f.nread + i < MAX_HEADER_SIZE && Next(guess, i, c, next)
    ensures Leads(push, Running(Begun(f, guess, i), log), [c], Begun(f, next, i + 1), log)
  {
    var h, h1 := Begun(f, guess, i), Begun(f, guess, i).(nread := f.nread + i + 1);
    InMethod(h1, c, guess, i, next, Begun(f, next, i + 1));
    Silent(push, h, h1, log, c, Begun(f, next, i + 1));
  }

  lemma {:induction false} NameRest<L(!new)>(push: Sink<L>, f: Fields, log: L, name: string, i: nat, guess: nat, m: nat)
    requires 0 < i <= |name| < 31 && f.nread + |name| <= MAX_HEADER_SIZE && Rest(name, i, guess, m)
    ensures Leads(push, Running(Begun(f, guess, i), log), name[i..], Begun(f, m, |name|), log) && NameEnds(m, |name|)
    decreases |name| - i
  {
    if i == |name| {
      RestEnds(name, guess, m);
      LeadsMeans(push, Running(Begun(f, guess, i), log), "", Begun(f, m, |name|), log);
    } else {
      var next := RestGoesOn(name, i, guess, m);
      NameRest(push, f, log, name, i + 1, next, m);
      RestFollows(push, f, log, name, i, guess, next, m);
    }
  }

  lemma RestFollows<L(!new)>(push: Sink<L>, f: Fields, log: L, name: string, i: nat, guess: nat, next: nat, m: nat)
    requires 0 < i < |name| < 31 && f.nread + |name| <= MAX_HEADER_SIZE && Next(guess, i, name[i], next)
    requires Leads(push, Running(Begun(f, next, i + 1), log), name[i + 1..], Begun(f, m, |name|), log)
    ensures Leads(push, Running(Begun(f, guess, i), log), name[i..], Begun(f, m, |name|), log)
  {
    MethodGoesOn(push, f, log, guess, i, name[i], next);
    assert name[i..] == [name[i]] + name[i + 1..];
    LeadsMore(push, Running(Begun(f, guess, i), log), [name[i]], name[i + 1..], Begun(f, next, i + 1), log, Begun(f, m, |name|), log);
  }

  /** In front of the target. */
  function BeforeTarget(f: Fields, m: nat, n: nat): Fields {
    Begun(f, m, n).(stage := ReqSpacesBeforeUrl, index := n + 1, nread := f.nread + n + 1)
  }

  lemma MethodEnds<L(!new)>(push: Sink<L>, f: Fields, log: L, m: nat, n: nat)
    requires 0 < n < 31 && f.nread + n < MAX_HEADER_SIZE && NameEnds(m, n)
    ensures Leads(push, Running(Begun(f, m, n), log), " ", BeforeTarget(f, m, n), log)
  {
    var h, h1 := Begun(f, m, n), Begun(f, m, n).(nread := f.nread + n + 1);
    AfterMethod(h1, m, n, BeforeTarget(f, m, n));
    Silent(push, h, h1, log, ' ', BeforeTarget(f, m, n));
  }

  /** A method's name and the space after it. */
  lemma MethodRead<L(!new)>(push: Sink<L>, f: Fields, log: L, m: nat, name: string)
    requires f.stage == StartReq && m < |METHODS| && name == METHODS[m] && f.nread + |name| + 1 <= MAX_HEADER_SIZE
    ensures 0 < |name| < 31
    ensures Leads(push, Running(f, log), name + " ", BeforeTarget(f, m, |name|), push(log, MessageBegin))
  {
    MethodKnown(m);
    NameThenSpace(push, f, log, name, m, FirstMethod(name[0]).value, push(log, MessageBegin));
  }

  lemma NameThenSpace<L(!new)>(push: Sink<L>, f: Fields, log: L, name: string, m: nat, guess: nat, log': L)
    requires f.stage == StartReq && 0 < |name| < 31 && f.nread + |name| + 1 <= MAX_HEADER_SIZE
    requires FirstMethod(name[0]) == Some(guess) && Rest(name, 1, guess, m) && log' == push(log, MessageBegin)
    ensures Leads(push, Running(f, log), name + " ", BeforeTarget(f, m, |name|), log')
  {
    MethodBegins(push, f, log, name[0]);
    NameRest(push, f, log', name, 1, guess, m);
    assert name == [name[0]] + name[1..];
    LeadsMore(push, Running(f, log), [name[0]], name[1..], Begun(f, guess, 1), log', Begun(f, m, |name|), log');
    MethodEnds(push, f, log', m, |name|);
    LeadsMore(push, Running(f, log), name, " ", Begun(f, m, |name|), log', BeforeTarget(f, m, |name|), log');
  }

  // ---------------------------------------------------------------- the target

  /** The state of the URL after these characters. */
  function UrlStage(s: Stage, t: string): Stage {
    if t == "" then s else ParseUrlChar(UrlStage(s, t[..|t| - 1]), t[|t| - 1])
  }

  lemma {:induction false} UrlStageSplit(s: Stage, a: string, b: string)
    ensures UrlStage(s, a + b) == UrlStage(UrlStage(s, a), b)
    decreases |b|
  {
    if b == "" {
      assert a + b == a;
    } else {
      assert (a + b)[..|a + b| - 1] == a + b[..|b| - 1];
      UrlStageSplit(s, a, b[..|b| - 1]);
    }
  }

  predicate InUrl(s: Stage) {
    Live(s) == Some(Url)
  }

  predicate InPath(s: Stage) {
    s == ReqPath || s == ReqQueryStringStart || s == ReqQueryString
  }

  lemma {:induction false} PathStage(s: Stage, p: string)
    requires InPath(s) && forall i | 0 <= i < |p| :: TargetChar(p[i])
    ensures InPath(UrlStage(s, p))
    decreases |p|
  {
    if p != "" {
      PathStage(s, p[..|p| - 1]);
      assert TargetChar(p[|p| - 1]);
    }
  }

  /** In the host, after a sign `@` or not. */
  predicate InHost(s: Stage, at: bool) {
    if at then s == ReqServerWithAt else s == ReqServer || s == ReqServerStart
  }

  lemma HostLetter(s: Stage, at: bool, c: char)
    requires InHost(s, at) && (HostChar(c) || (c == '@' && !at))
    ensures InHost(ParseUrlChar(s, c), c == '@') && UrlMayEnd(ParseUrlChar(s, c))
  {
  }

  lemma {:induction false} HostStage(host: string)
    requires Host(host)
    ensures InHost(UrlStage(ReqServerStart, host), host != "" && host[|host| - 1] == '@')
    ensures host != "" ==> UrlMayEnd(UrlStage(ReqServerStart, host))
    decreases |host|
  {
    if host != "" {
      var init, c := host[..|host| - 1], host[|host| - 1];
      assert Host(init) by {
        assert forall i | 0 <= i < |init| :: init[i] == host[i];
      }
      HostStage(init);
      assert host[|host| - 1] == '@' && init != "" ==> host[|host| - 2] != '@';
      HostLetter(UrlStage(ReqServerStart, init), init != "" && init[|init| - 1] == '@', c);
    }
  }

  lemma AfterHost(s: Stage, at: bool, path: string)
    requires InHost(s, at) && path != "" && PathAfterHost(path)
    ensures InPath(UrlStage(s, path))
  {
    var first, rest := path[..1], path[1..];
    assert path == first + rest && first == [path[0]];
    UrlStageSplit(s, first, rest);
    assert UrlStage(s, first) == ParseUrlChar(s, path[0]) by {
      assert first[..0] == "";
    }
    PathStage(UrlStage(s, first), rest);
  }

  lemma HostThenPath(host: string, path: string)
    requires Host(host) && PathAfterHost(path) && host + path != ""
    ensures UrlMayEnd(UrlStage(ReqServerStart, host + path))
  {
    HostStage(host);
    UrlStageSplit(ReqServerStart, host, path);
    if path == "" {
      assert host + path == host;
    } else {
      AfterHost(UrlStage(ReqServerStart, host), host != "" && host[|host| - 1] == '@', path);
    }
  }

  lemma {:induction false} SchemeStage(scheme: string)
    requires scheme != "" && forall i | 0 <= i < |scheme| :: HttpText.Letter(scheme[i])
    ensures UrlStage(ReqSpacesBeforeUrl, scheme) == ReqSchema
    decreases |scheme|
  {
    var init, c := scheme[..|scheme| - 1], scheme[|scheme| - 1];
    LetterIs(c);
    if init == "" {
      assert scheme == [c];
    } else {
      SchemeStage(init);
    }
  }

  lemma LetterIs(c: char)
    requires HttpText.Letter(c)
    ensures IsAlpha(c) && c != '/' && c != '*' && c !in " \r\n\t" && c as int != 12
  {
  }

  lemma AfterScheme()
    ensures UrlStage(ReqSchema, "://") == ReqServerStart
  {
    var t := "://";
    assert t[..2] == ":/" && t[..2][..1] == ":" && t[..2][..1][..0] == "";
    assert UrlStage(ReqSchema, ":") == ReqSchemaSlash;
    assert UrlStage(ReqSchema, ":/") == ReqSchemaSlashSlash;
  }

  /** Where the parser looks for the target from. */
  function TargetStart(m: nat): Stage {
    if m == CONNECT then ReqServerStart else ReqSpacesBeforeUrl
  }

  /** A target is of a form that the method may have. */
  predicate TargetFits(m: nat, t: Target) {
    WellFormedTarget(t) && (m == CONNECT <==> t.Authority?)
  }

  lemma TargetStage(m: nat, t: Target)
    requires TargetFits(m, t)
    ensures UrlMayEnd(UrlStage(TargetStart(m), TargetText(t)))
  {
    match t
    case Path(path) => WholePath(path);
    case Authority(host, path) => HostThenPath(host, path);
    case Absolute(scheme, host, path) =>
      SchemeStage(scheme);
      AfterScheme();
      HostThenPath(host, path);
      UrlStageSplit(ReqSchema, "://", host + path);
      UrlStageSplit(ReqSpacesBeforeUrl, scheme, "://" + (host + path));
  }

  lemma OneUrlChar(s: Stage, c: char)
    ensures UrlStage(s, [c]) == ParseUrlChar(s, c)
  {
    assert [c][..0] == "";
  }

  lemma WholePath(path: string)
    requires path != "" && (path[0] == '/' || path[0] == '*') && forall i | 0 <= i < |path| :: TargetChar(path[i])
    ensures InPath(UrlStage(ReqSpacesBeforeUrl, path))
  {
    assert path == [path[0]] + path[1..];
    OneUrlChar(ReqSpacesBeforeUrl, path[0]);
    UrlStageSplit(ReqSpacesBeforeUrl, [path[0]], path[1..]);
    PathStage(ReqPath, path[1..]);
  }

  // ---------------------------------------------------------------- the target on the machine

  lemma UrlCharIs(s: Stage, c: char)
    requires (s == ReqSpacesBeforeUrl || InUrl(s)) && ParseUrlChar(s, c) != Dead
    ensures InUrl(ParseUrlChar(s, c)) && c != ' ' && c != CR && c != LF
  {
  }

  lemma FirstUrlChar<L(!new)>(push: Sink<L>, f: Fields, log: L, c: char, s: Stage)
    requires f.stage == ReqSpacesBeforeUrl && f.nread < MAX_HEADER_SIZE && s == ParseUrlChar(TargetStart(f.method_), c) != Dead
    ensures Leads(push, Running(f, log), [c], f.(stage := s, nread := f.nread + 1), push(log, Data(Url, [c])))
  {
    var f1, g := f.(nread := f.nread + 1), f.(stage := s, nread := f.nread + 1);
    UrlCharIs(TargetStart(f.method_), c);
    CountedStep(push, f, f1, log, c);
    assert FirstUrlByte(f1, c) == Act(g, Some(Url), None, None, Done);
    PlainFirst(f1, c);
    ExecPlain(push, f1, log, c);
    LeadsOne(push, f, log, c, g, push(log, Data(Url, [c])));
  }

  lemma PlainFirst(f: Fields, c: char)
    requires f.stage == ReqSpacesBeforeUrl
    ensures Plain(f, c) == FirstUrlByte(f, c)
  {
  }

  lemma PlainUrl(f: Fields, c: char)
    requires InUrl(f.stage)
    ensures Plain(f, c) == UrlByte(f, c)
  {
    assert !Bulk(f.stage) && !InHeaders(f.stage) && !InChunks(f.stage);
    assert RequestLine(f, c) == UrlByte(f, c);
  }

  lemma NextUrlChar<L(!new)>(push: Sink<L>, f: Fields, log: L, u: string, c: char, s: Stage)
    requires Joins(push) && InUrl(f.stage) && f.nread < MAX_HEADER_SIZE && s == ParseUrlChar(f.stage, c) != Dead
    ensures Leads(push, Running(f, push(log, Data(Url, u))), [c], f.(stage := s, nread := f.nread + 1), push(log, Data(Url, u + [c])))
  {
    var f1, g, log1 := f.(nread := f.nread + 1), f.(stage := s, nread := f.nread + 1), push(log, Data(Url, u));
    UrlCharIs(f.stage, c);
    CountedStep(push, f, f1, log1, c);
    assert UrlByte(f1, c) == Go(g);
    PlainUrl(f1, c);
    ExecPlain(push, f1, log1, c);
    LeadsOne(push, f, log1, c, g, push(log1, Data(Url, [c])));
    Join(push, log, Url, u, [c]);
  }

  lemma {:induction false} TargetRead<L(!new)>(push: Sink<L>, f: Fields, log: L, t: string)
    requires Joins(push) && f.stage == ReqSpacesBeforeUrl && f.nread + |t| <= MAX_HEADER_SIZE
    requires t != "" && UrlStage(TargetStart(f.method_), t) != Dead
    ensures InUrl(UrlStage(TargetStart(f.method_), t))
    ensures Leads(push, Running(f, log), t, f.(stage := UrlStage(TargetStart(f.method_), t), nread := f.nread + |t|), push(log, Data(Url, t)))
    decreases |t|
  {
    var init, c, s0 := t[..|t| - 1], t[|t| - 1], TargetStart(f.method_);
    assert t == init + [c];
    if init == "" {
      FirstUrlChar(push, f, log, c, UrlStage(s0, t));
      UrlCharIs(s0, c);
    } else {
      TargetRead(push, f, log, init);
      UrlCharIs(UrlStage(s0, init), c);
      TargetMore(push, f, log, init, c, t, UrlStage(s0, init), UrlStage(s0, t));
    }
  }

  lemma TargetMore<L(!new)>(push: Sink<L>, f: Fields, log: L, init: string, c: char, t: string, s: Stage, next: Stage)
    requires Joins(push) && t == init + [c] && f.nread + |t| <= MAX_HEADER_SIZE && InUrl(s) && next == ParseUrlChar(s, c) != Dead
    requires Leads(push, Running(f, log), init, f.(stage := s, nread := f.nread + |init|), push(log, Data(Url, init)))
    ensures Leads(push, Running(f, log), t, f.(stage := next, nread := f.nread + |t|), push(log, Data(Url, t)))
  {
    var g := f.(stage := s, nread := f.nread + |init|);
    NextUrlChar(push, g, log, init, c, next);
    LeadsMore(push, Running(f, log), init, [c], g, push(log, Data(Url, init)),
              f.(stage := next, nread := f.nread + |t|), push(log, Data(Url, t)));
  }

  // ---------------------------------------------------------------- the version

  /** The request line with its method read, after `n` more characters, in this state. */
  function At(f: Fields, s: Stage, n: nat): Fields {
    f.(stage := s, nread := f.nread + n)
  }

  lemma TargetEnds<L(!new)>(push: Sink<L>, f: Fields, log: L)
    requires UrlMayEnd(f.stage) && f.nread < MAX_HEADER_SIZE
    ensures Leads(push, Running(f, log), " ", At(f, ReqHttpStart, 1), log)
  {
    var f1, g := f.(nread := f.nread + 1), At(f, ReqHttpStart, 1);
    CountedStep(push, f, f1, log, ' ');
    PlainUrl(f1, ' ');
    assert UrlByte(f1, ' ') == Act(g, None, Some(Url), None, Done);
    ExecPlain(push, f1, log, ' ');
    LeadsOne(push, f, log, ' ', g, log);
  }

  /** The fixed characters of a version and its line end lead from state to state. */
  predicate VersionGoes(s: Stage, c: char, next: Stage) {
    || (s == ReqHttpStart && c == 'H' && next == ReqHttpH)
    || (s == ReqHttpH && c == 'T' && next == ReqHttpHT)
    || (s == ReqHttpHT && c == 'T' && next == ReqHttpHTT)
    || (s == ReqHttpHTT && c == 'P' && next == ReqHttpHTTP)
    || (s == ReqHttpHTTP && c == '/' && next == ReqHttpMajor)
    || (s == ReqHttpDot && c == '.' && next == ReqHttpMinor)
    || (s == ReqHttpEnd && c == CR && next == ReqLineAlmostDone)
    || (s == ReqLineAlmostDone && c == LF && next == HeaderFieldStart)
  }

  lemma VersionLetter(f: Fields, c: char, g: Fields)
    requires VersionGoes(f.stage, c, g.stage) && g == f.(stage := g.stage)
    ensures Plain(f, c) == Go(g)
  {
  }

  lemma VersionByte<L(!new)>(push: Sink<L>, f: Fields, log: L, c: char, s: Stage, n: nat, next: Stage)
    requires f.nread + n < MAX_HEADER_SIZE && VersionGoes(s, c, next)
    ensures Leads(push, Running(At(f, s, n), log), [c], At(f, next, n + 1), log)
  {
    var h := At(f, s, n);
    VersionLetter(h.(nread := h.nread + 1), c, At(f, next, n + 1));
    Silent(push, h, h.(nread := h.nread + 1), log, c, At(f, next, n + 1));
  }

  lemma MajorRead<L(!new)>(push: Sink<L>, f: Fields, log: L, c: char, n: nat)
    requires f.nread + n < MAX_HEADER_SIZE && Numeral(c)
    ensures Leads(push, Running(At(f, ReqHttpMajor, n), log), [c], At(f.(major := DigitValue(c)), ReqHttpDot, n + 1), log)
  {
    var h, g := At(f, ReqHttpMajor, n), At(f.(major := DigitValue(c)), ReqHttpDot, n + 1);
    MajorDigit(h.(nread := h.nread + 1), c, g);
    Silent(push, h, h.(nread := h.nread + 1), log, c, g);
  }

  lemma MajorDigit(f: Fields, c: char, g: Fields)
    requires f.stage == ReqHttpMajor && Numeral(c) && g == f.(major := DigitValue(c), stage := ReqHttpDot)
    ensures Plain(f, c) == Go(g)
  {
  }

  lemma MinorRead<L(!new)>(push: Sink<L>, f: Fields, log: L, c: char, n: nat)
    requires f.nread + n < MAX_HEADER_SIZE && Numeral(c)
    ensures Leads(push, Running(At(f, ReqHttpMinor, n), log), [c], At(f.(minor := DigitValue(c)), ReqHttpEnd, n + 1), log)
  {
    var h, g := At(f, ReqHttpMinor, n), At(f.(minor := DigitValue(c)), ReqHttpEnd, n + 1);
    MinorDigit(h.(nread := h.nread + 1), c, g);
    Silent(push, h, h.(nread := h.nread + 1), log, c, g);
  }

  lemma MinorDigit(f: Fields, c: char, g: Fields)
    requires f.stage == ReqHttpMinor && Numeral(c) && g == f.(minor := DigitValue(c), stage := ReqHttpEnd)
    ensures Plain(f, c) == Go(g)
  {
  }

  lemma Http<L(!new)>(push: Sink<L>, f: Fields, log: L)
    requires f.nread + 5 <= MAX_HEADER_SIZE
    ensures Leads(push, Running(At(f, ReqHttpStart, 0), log), "HTTP/", At(f, ReqHttpMajor, 5), log)
  {
    var m := Running(At(f, ReqHttpStart, 0), log);
    VersionByte(push, f, log, 'H', ReqHttpStart, 0, ReqHttpH);
    VersionByte(push, f, log, 'T', ReqHttpH, 1, ReqHttpHT);
    VersionByte(push, f, log, 'T', ReqHttpHT, 2, ReqHttpHTT);
    VersionByte(push, f, log, 'P', ReqHttpHTT, 3, ReqHttpHTTP);
    VersionByte(push, f, log, '/', ReqHttpHTTP, 4, ReqHttpMajor);
    LeadsMore(push, m, "H", "T", At(f, ReqHttpH, 1), log, At(f, ReqHttpHT, 2), log);
    LeadsMore(push, m, "H" + "T", "T", At(f, ReqHttpHT, 2), log, At(f, ReqHttpHTT, 3), log);
    LeadsMore(push, m, "H" + "T" + "T", "P", At(f, ReqHttpHTT, 3), log, At(f, ReqHttpHTTP, 4), log);
    LeadsMore(push, m, "H" + "T" + "T" + "P", "/", At(f, ReqHttpHTTP, 4), log, At(f, ReqHttpMajor, 5), log);
    assert "H" + "T" + "T" + "P" + "/" == "HTTP/";
  }

  lemma LineEndRead<L(!new)>(push: Sink<L>, f: Fields, log: L, n: nat)
    requires f.nread + n + 2 <= MAX_HEADER_SIZE
    ensures Leads(push, Running(At(f, ReqHttpEnd, n), log), "\r\n", At(f, HeaderFieldStart, n + 2), log)
  {
    VersionByte(push, f, log, CR, ReqHttpEnd, n, ReqLineAlmostDone);
    VersionByte(push, f, log, LF, ReqLineAlmostDone, n + 1, HeaderFieldStart);
    LeadsMore(push, Running(At(f, ReqHttpEnd, n), log), "\r", "\n", At(f, ReqLineAlmostDone, n + 1), log, At(f, HeaderFieldStart, n + 2), log);
    assert "\r" + "\n" == "\r\n";
  }

  /** The version and the end of the line. */
  lemma VersionRead<L(!new)>(push: Sink<L>, f: Fields, log: L, a: char, b: char)
    requires f.stage == ReqHttpStart && f.nread + 10 <= MAX_HEADER_SIZE && Numeral(a) && Numeral(b)
    ensures Leads(push, Running(f, log), VersionText(a, b),
                  f.(stage := HeaderFieldStart, major := DigitValue(a), minor := DigitValue(b), nread := f.nread + 10), log)
  {
    var f1 := f.(major := DigitValue(a));
    var f2 := f1.(minor := DigitValue(b));
    Http(push, f, log);
    assert At(f, ReqHttpStart, 0) == f;
    MajorRead(push, f, log, a, 5);
    VersionByte(push, f1, log, '.', ReqHttpDot, 6, ReqHttpMinor);
    MinorRead(push, f1, log, b, 7);
    LineEndRead(push, f2, log, 8);
    LeadsMore(push, Running(At(f1, ReqHttpMinor, 7), log), [b], "\r\n", At(f2, ReqHttpEnd, 8), log, At(f2, HeaderFieldStart, 10), log);
    LeadsMore(push, Running(At(f1, ReqHttpDot, 6), log), ".", [b] + "\r\n", At(f1, ReqHttpMinor, 7), log, At(f2, HeaderFieldStart, 10), log);
    LeadsMore(push, Running(At(f, ReqHttpMajor, 5), log), [a], "." + ([b] + "\r\n"), At(f1, ReqHttpDot, 6), log, At(f2, HeaderFieldStart, 10), log);
    LeadsMore(push, Running(f, log), "HTTP/", [a] + ("." + ([b] + "\r\n")), At(f, ReqHttpMajor, 5), log, At(f2, HeaderFieldStart, 10), log);
  }

  // ---------------------------------------------------------------- the whole line

  /** What the line leaves in the fields. */
  function LineRead(f: Fields, m: nat, a: char, b: char, n: nat): Fields
    requires Numeral(a) && Numeral(b)
  {
    f.(stage := HeaderFieldStart, flags := NO_FLAGS, usesTransferEncoding := false, contentLength := ULLONG_MAX,
       method_ := m, major := DigitValue(a), minor := DigitValue(b), nread := f.nread + n)
  }

  lemma TargetPart<L(!new)>(push: Sink<L>, f: Fields, log: L, t: Target)
    requires Joins(push) && f.stage == ReqSpacesBeforeUrl && TargetFits(f.method_, t) && f.nread + |TargetText(t)| + 1 <= MAX_HEADER_SIZE
    ensures Leads(push, Running(f, log), TargetText(t) + " ", At(f, ReqHttpStart, |TargetText(t)| + 1), push(log, Data(Url, TargetText(t))))
  {
    var u, s := TargetText(t), UrlStage(TargetStart(f.method_), TargetText(t));
    TargetStage(f.method_, t);
    TargetRead(push, f, log, u);
    SpaceAfter(push, f, f.(stage := s, nread := f.nread + |u|), log, push(log, Data(Url, u)), u);
  }

  lemma SpaceAfter<L(!new)>(push: Sink<L>, f: Fields, g: Fields, log: L, log': L, u: string)
    requires g == f.(stage := g.stage, nread := f.nread + |u|) && g.nread < MAX_HEADER_SIZE && UrlMayEnd(g.stage)
    requires Leads(push, Running(f, log), u, g, log')
    ensures Leads(push, Running(f, log), u + " ", At(f, ReqHttpStart, |u| + 1), log')
  {
    TargetEnds(push, g, log');
    LeadsMore(push, Running(f, log), u, " ", g, log', At(f, ReqHttpStart, |u| + 1), log');
  }

  /** The line of a request: from its text, the callbacks get the begin of the message and the target, and the
      fields the method's number and the version. */
  lemma RequestLineRead<L(!new)>(push: Sink<L>, f: Fields, log: L, m: nat, name: string, t: Target, a: char, b: char) returns (g: Fields)
    requires Joins(push) && f.stage == StartReq && m < |METHODS| && name == METHODS[m] && TargetFits(m, t) && Numeral(a) && Numeral(b)
    requires f.nread + |LineText(name, t, a, b)| <= MAX_HEADER_SIZE
    ensures g == LineRead(f, m, a, b, |LineText(name, t, a, b)|).(index := g.index)
    ensures Leads(push, Running(f, log), LineText(name, t, a, b), g, push(push(log, MessageBegin), Data(Url, TargetText(t))))
  {
    var u, v := TargetText(t), VersionText(a, b);
    var log1 := push(log, MessageBegin);
    var log2 := push(log1, Data(Url, u));
    MethodRead(push, f, log, m, name);
    var f1 := BeforeTarget(f, m, |name|);
    TargetPart(push, f1, log1, t);
    var f2 := At(f1, ReqHttpStart, |u| + 1);
    VersionRead(push, f2, log2, a, b);
    g := f2.(stage := HeaderFieldStart, major := DigitValue(a), minor := DigitValue(b), nread := f2.nread + 10);
    LeadsMore(push, Running(f1, log1), u + " ", v, f2, log2, g, log2);
    LeadsMore(push, Running(f, log), name + " ", (u + " ") + v, f1, log1, g, log2);
  }
}
