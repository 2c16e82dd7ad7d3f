/** When an assertion of `http_parser_execute` fails: on the bytes, exactly, and with an input that does it. */
module HttpAbort {
  import opened Options
  import opened HttpMethods
  import opened HttpMachine
  import opened HttpSafety

  /** Always true. It names the step from byte `i` to the next one, so that a proof takes only the steps it mentions. */
  predicate Look(i: int) {
    true
  }

  /** `t` holds the byte machine before each byte, and after the last one. */
  ghost predicate Steps<L>(push: Sink<L>, data: string, t: seq<Machine<L>>) {
    && |t| == |data| + 1
    && forall i {:trigger Look(i)} | 0 <= i < |data| :: Look(i) ==> t[i + 1] == StepByte(push, t[i], data[i])
  }

  lemma {:induction false} StepsOf<L>(push: Sink<L>, m: Machine<L>, data: string) returns (t: seq<Machine<L>>)
    ensures Steps(push, data, t) && t[0] == m
    decreases |data|
  {
    if data == "" {
      t := [m];
    } else {
      var init := data[..|data| - 1];
      var t0 := StepsOf(push, m, init);
      t := OneStepMore(push, data, t0);
    }
  }

  lemma {:induction false} StepsAre<L>(push: Sink<L>, m: Machine<L>, data: string, t: seq<Machine<L>>, k: nat)
    requires Steps(push, data, t) && t[0] == m && k <= |data|
    ensures Run(push, m, data[..k]) == t[k]
    decreases k
  {
    if k > 0 {
      StepsAre(push, m, data, t, k - 1);
      StepAfter(push, m, data, t, k - 1);
    } else {
      assert data[..0] == "";
    }
  }

  lemma StepAfter<L>(push: Sink<L>, m: Machine<L>, data: string, t: seq<Machine<L>>, k: nat)
    requires Steps(push, data, t) && k < |data| && Run(push, m, data[..k]) == t[k]
    ensures Run(push, m, data[..k + 1]) == t[k + 1]
  {
    assert Look(k);
    RunTo(push, m, data, k);
  }

  lemma RunTo<L>(push: Sink<L>, m: Machine<L>, data: string, k: nat)
    requires k < |data|
    ensures Run(push, m, data[..k + 1]) == StepByte(push, Run(push, m, data[..k]), data[k])
  {
    assert data[..k + 1][..k] == data[..k];
  }

  lemma OneStepMore<L>(push: Sink<L>, data: string, t0: seq<Machine<L>>) returns (t: seq<Machine<L>>)
    requires data != "" && Steps(push, data[..|data| - 1], t0)
    ensures Steps(push, data, t) && t[..|data|] == t0 && t[|data|] == StepByte(push, t0[|data| - 1], data[|data| - 1])
  {
    var n := |data| - 1;
    t := t0 + [StepByte(push, t0[n], data[n])];
    forall i {:trigger Look(i)} | 0 <= i < |data| && Look(i) ensures t[i + 1] == StepByte(push, t[i], data[i]) {
      if i < n {
        assert data[..n][i] == data[i] && t[i] == t0[i] && t[i + 1] == t0[i + 1];
      }
    }
  }

  /** The parser runs, with these fields. */
  predicate At<L>(m: Machine<L>, f: Fields) {
    m.Running? && m.f == f
  }

  /** One byte leads from these fields to those. */
  predicate Goes(f: Fields, c: char, g: Fields) {
    && InHeader(f.stage) && !Bulk(f.stage) && f.nread < MAX_HEADER_SIZE
    && var a := Plain(f.(nread := f.nread + 1), c); a.next == Done && a.f == g
  }

  lemma StepGoes<L>(push: Sink<L>, m: Machine<L>, f: Fields, c: char, g: Fields)
    requires At(m, f) && Goes(f, c, g)
    ensures At(StepByte(push, m, c), g)
  {
    CountedStep(push, f, f.(nread := f.nread + 1), m.log, c);
  }

  lemma StepField<L>(push: Sink<L>, m: Machine<L>, f: Fields, c: char, s: Scan)
    requires At(m, f) && f.stage == HeaderField && f.nread < MAX_HEADER_SIZE && IsToken(c) && FieldChar(ScanOf(f), c) == Ok(s)
    ensures At(StepByte(push, m, c), WithScan(f.(nread := f.nread + 1), s))
  {
    CountedStep(push, f, f.(nread := f.nread + 1), m.log, c);
  }

  lemma StepColon<L>(push: Sink<L>, m: Machine<L>, f: Fields)
    requires At(m, f) && f.stage == HeaderField && f.nread < MAX_HEADER_SIZE
    ensures At(StepByte(push, m, ':'), f.(nread := f.nread + 1, stage := HeaderValueDiscardWs))
  {
    CountedStep(push, f, f.(nread := f.nread + 1), m.log, ':');
  }

  lemma Next<L>(push: Sink<L>, data: string, t: seq<Machine<L>>, k: nat, f: Fields, g: Fields)
    requires Steps(push, data, t) && k < |data| && At(t[k], f) && Goes(f, data[k], g)
    ensures At(t[k + 1], g)
  {
    assert Look(k);
    StepGoes(push, t[k], f, data[k], g);
  }

  lemma NextOfName<L>(push: Sink<L>, data: string, t: seq<Machine<L>>, k: nat, f: Fields, s: Scan)
    requires Steps(push, data, t) && k < |data| && At(t[k], f)
    requires f.stage == HeaderField && f.nread < MAX_HEADER_SIZE && IsToken(data[k]) && FieldChar(ScanOf(f), data[k]) == Ok(s)
    ensures At(t[k + 1], WithScan(f.(nread := f.nread + 1), s))
  {
    assert Look(k);
    StepField(push, t[k], f, data[k], s);
  }

  lemma NextColon<L>(push: Sink<L>, data: string, t: seq<Machine<L>>, k: nat, f: Fields)
    requires Steps(push, data, t) && k < |data| && At(t[k], f) && f.stage == HeaderField && f.nread < MAX_HEADER_SIZE && data[k] == ':'
    ensures At(t[k + 1], f.(nread := f.nread + 1, stage := HeaderValueDiscardWs))
  {
    assert Look(k);
    StepColon(push, t[k], f);
  }

  // ---------------------------------------------------------------- an input

  /** The fields in the first line of a GET request. */
  function Line(stage: Stage, index: nat, nread: nat, minor: nat): Fields {
    INITIAL.(stage := stage, contentLength := ULLONG_MAX, method_ := GET, index := index, nread := nread, minor := minor)
  }

  lemma MethodBegins()
    ensures Goes(INITIAL, 'G', Line(ReqMethod, 1, 1, 0))
  {
  }

  lemma MethodGoes(i: nat)
    requires 1 <= i <= 2
    ensures Goes(Line(ReqMethod, i, i, 0), if i == 1 then 'E' else 'T', Line(ReqMethod, i + 1, i + 1, 0))
  {
  }

  lemma GetEnds()
    ensures MethodChar(GET, 3) == '\0'
  {
  }

  lemma MethodEnds()
    ensures Goes(Line(ReqMethod, 3, 3, 0), ' ', Line(ReqSpacesBeforeUrl, 4, 4, 0))
  {
    GetEnds();
  }

  lemma UrlBegins()
    ensures Goes(Line(ReqSpacesBeforeUrl, 4, 4, 0), '/', Line(ReqPath, 4, 5, 0))
  {
  }

  lemma UrlEnds()
    ensures Goes(Line(ReqPath, 4, 5, 0), CR, Line(ReqLineAlmostDone, 4, 6, 9))
  {
  }

  lemma LineEnds()
    ensures Goes(Line(ReqLineAlmostDone, 4, 6, 9), LF, Line(HeaderFieldStart, 4, 7, 9))
  {
  }

  lemma LineRead<L>(push: Sink<L>, data: string, t: seq<Machine<L>>)
    requires Steps(push, data, t) && At(t[0], INITIAL)
    requires |data| >= 7 && data[0] == 'G' && data[1] == 'E' && data[2] == 'T' && data[3] == ' ' && data[4] == '/'
    requires data[5] == CR && data[6] == LF
    ensures At(t[7], Line(HeaderFieldStart, 4, 7, 9))
  {
    MethodBegins();
    Next(push, data, t, 0, INITIAL, Line(ReqMethod, 1, 1, 0));
    MethodGoes(1);
    Next(push, data, t, 1, Line(ReqMethod, 1, 1, 0), Line(ReqMethod, 2, 2, 0));
    MethodGoes(2);
    Next(push, data, t, 2, Line(ReqMethod, 2, 2, 0), Line(ReqMethod, 3, 3, 0));
    MethodEnds();
    Next(push, data, t, 3, Line(ReqMethod, 3, 3, 0), Line(ReqSpacesBeforeUrl, 4, 4, 0));
    UrlBegins();
    Next(push, data, t, 4, Line(ReqSpacesBeforeUrl, 4, 4, 0), Line(ReqPath, 4, 5, 0));
    UrlEnds();
    Next(push, data, t, 5, Line(ReqPath, 4, 5, 0), Line(ReqLineAlmostDone, 4, 6, 9));
    LineEnds();
    Next(push, data, t, 6, Line(ReqLineAlmostDone, 4, 6, 9), Line(HeaderFieldStart, 4, 7, 9));
  }

  const NAME := "Connection"

  /** The state of the comparison before character `n` of the name. */
  function NameState(n: nat): HeaderState {
    if n == 1 then C else if n == 2 then CO else if n == 3 then CON else if n < 10 then MatchingConnection else Connection
  }

  /** The fields after the first `n` characters of the name. */
  function Named(f: Fields, n: nat): Fields
    requires n > 0
  {
    f.(stage := HeaderField, headerState := NameState(n), index := n - 1, nread := f.nread + n)
  }

  lemma NameBegins(f: Fields)
    requires f.stage == HeaderFieldStart && f.nread < MAX_HEADER_SIZE
    ensures Goes(f, 'C', Named(f, 1))
  {
  }

  lemma NameGoes(f: Fields, n: nat)
    requires 1 <= n < 10
    ensures IsToken(NAME[n])
    ensures FieldChar(ScanOf(Named(f, n)), NAME[n]) == Ok(ScanOf(Named(f, n)).(headerState := NameState(n + 1), index := n))
  {
    if n < 4 {
      assert NAME[n] == if n == 1 then 'o' else 'n';
    } else {
      MatchGoes(n);
    }
  }

  lemma MatchGoes(n: nat)
    requires 4 <= n < 10
    ensures IsToken(NAME[n]) && Lower(NAME[n]) == NAME[n] == "connection"[n] && "connection"[n] != '\0'
  {
  }

  lemma NextLetter<L>(push: Sink<L>, data: string, t: seq<Machine<L>>, k: nat, f: Fields, n: nat)
    requires Steps(push, data, t) && 1 <= n < 10 && f.nread + 10 <= MAX_HEADER_SIZE && k + n < |data|
    requires At(t[k + n], Named(f, n)) && data[k + n] == NAME[n]
    ensures At(t[k + n + 1], Named(f, n + 1))
  {
    NameGoes(f, n);
    NextOfName(push, data, t, k + n, Named(f, n), ScanOf(Named(f, n)).(headerState := NameState(n + 1), index := n));
  }

  /** The name of the header is recognised, one character after the other. */
  lemma NameRead<L>(push: Sink<L>, data: string, t: seq<Machine<L>>, k: nat, f: Fields)
    requires Steps(push, data, t) && k + 10 <= |data| && data[k..k + 10] == NAME
    requires At(t[k], f) && f.stage == HeaderFieldStart && f.nread + 10 <= MAX_HEADER_SIZE
    ensures At(t[k + 10], Named(f, 10))
  {
    var s := data[k..k + 10];
    assert data[k] == s[0] == 'C';
    NameBegins(f);
    Next(push, data, t, k, f, Named(f, 1));
    var n := 1;
    while n < 10
      invariant 1 <= n <= 10 && At(t[k + n], Named(f, n))
    {
      assert data[k + n] == s[n];
      NextLetter(push, data, t, k, f, n);
      n := n + 1;
    }
  }

  const INPUT := "GET /\r\nConnection:\0x"

  /** A whole request, from its first byte, on which the assertion fails. */
  lemma InputAborts<L(!new)>(push: Sink<L>, log: L)
    ensures Run(push, Running(INITIAL, log), INPUT) == Halted(Aborted)
  {
    var t := StepsOf(push, Running(INITIAL, log), INPUT);
    assert INPUT[7..17] == NAME && |INPUT| == 20;
    BytesAbort(push, INPUT, t);
    StepsAre(push, Running(INITIAL, log), INPUT, t, 20);
    assert INPUT[..20] == INPUT;
  }

  lemma BytesAbort<L(!new)>(push: Sink<L>, data: string, t: seq<Machine<L>>)
    requires Steps(push, data, t) && At(t[0], INITIAL) && |data| == 20
    requires data[0] == 'G' && data[1] == 'E' && data[2] == 'T' && data[3] == ' ' && data[4] == '/' && data[5] == CR && data[6] == LF
    requires data[7..17] == NAME && data[17] == ':' && data[18] == '\0' && data[19] == 'x'
    ensures t[20] == Halted(Aborted)
  {
    LineRead(push, data, t);
    var f := Line(HeaderFieldStart, 4, 7, 9);
    NameRead(push, data, t, 7, f);
    NextColon(push, data, t, 17, Named(f, 10));
    LastTwo(push, data, t, 18);
  }

  lemma LastTwo<L(!new)>(push: Sink<L>, data: string, t: seq<Machine<L>>, k: nat)
    requires Steps(push, data, t) && k + 2 == |data| && data[k] == '\0' && data[k + 1] == 'x'
    requires Awaits(t[k]) && t[k].f.nread + 2 <= MAX_HEADER_SIZE
    ensures t[k + 2] == Halted(Aborted)
  {
    assert Look(k) && Look(k + 1);
    NulAborts(push, t[k].f, t[k].log, 'x');
  }

  // ---------------------------------------------------------------- all inputs

  /** The value of a `Connection` header is about to begin. */
  predicate Awaits<L>(m: Machine<L>) {
    m.Running? && m.f.stage == HeaderValueDiscardWs && m.f.headerState == Connection
  }

  /** Line breaks that leave the kind of the value open: 0 is in the value, 1 after CR, 2 after LF; 3 is anything
      else. A tab continues a value too, but the table of lower-case letters makes it a `)`, which decides. */
  function FoldStep(q: nat, c: char): nat {
    if q == 0 && c == CR then 1
    else if (q == 0 || q == 1) && c == LF then 2
    else if q == 2 && c == ' ' then 0
    else 3
  }

  function Folding(s: string): (q: nat)
    ensures q <= 3
  {
    if s == "" then 0 else FoldStep(Folding(s[..|s| - 1]), s[|s| - 1])
  }

  /** The value began with a NUL at `i`, nothing but such line breaks followed, and now comes a character of the value. */
  ghost predicate AbortsAt<L>(t: seq<Machine<L>>, data: string, i: nat, j: nat)
    requires |t| == |data| + 1
  {
    && i < j < |data| && Awaits(t[i]) && data[i] == '\0' && Folding(data[i + 1..j]) == 0
    && IsHeaderChar(data[j]) && data[j] != CR && data[j] != LF
    && t[j].Running? && t[j].f.nread < MAX_HEADER_SIZE
  }

  /** A value whose kind is open, with the parser at this place of a line break. */
  predicate Open(f: Fields, q: nat) {
    f.headerState == Connection && ((q == 0 && f.stage == HeaderValue) || (q == 1 && f.stage == HeaderAlmostDone) || (q == 2 && f.stage == HeaderValueLws))
  }

  lemma OpenGoesOn<L>(push: Sink<L>, f: Fields, log: L, c: char, q: nat)
    requires Open(f, q) && StepByte(push, Running(f, log), c).Running?
    ensures var g := StepByte(push, Running(f, log), c).f; if FoldStep(q, c) < 3 then Open(g, FoldStep(q, c)) else Decided(g)
  {
    if f.nread < MAX_HEADER_SIZE {
      var g := f.(nread := f.nread + 1);
      CountedStep(push, f, g, log, c);
      if q == 0 {
        OpenValue(push, g, log, c);
      } else if q == 1 {
        OpenLine(push, g, log, c);
      } else {
        OpenLws(push, g, log, c);
      }
    } else {
      OverflowStep(push, f, log, c);
    }
  }

  lemma OpenValue<L>(push: Sink<L>, f: Fields, log: L, c: char)
    requires Open(f, 0) && Exec(push, f, log, c).Running?
    ensures var g := Exec(push, f, log, c).f; if FoldStep(0, c) < 3 then Open(g, FoldStep(0, c)) else Decided(g)
  {
    if c == LF {
      OpenLine(push, f.(stage := HeaderAlmostDone), log, c);
    } else if c != CR {
      ValueSound(ScanOf(f), c);
    }
  }

  lemma OpenLine<L>(push: Sink<L>, f: Fields, log: L, c: char)
    requires Open(f, 1) && Exec(push, f, log, c).Running?
    ensures c == LF && Open(Exec(push, f, log, c).f, 2)
  {
  }

  lemma OpenLws<L>(push: Sink<L>, f: Fields, log: L, c: char)
    requires Open(f, 2) && Exec(push, f, log, c).Running?
    ensures var g := Exec(push, f, log, c).f; if c == ' ' then Open(g, 0) else Decided(g)
  {
    LwsAgain(push, f, log, c);
    if c == ' ' || c == '\t' {
      OpenAgain(push, f.(stage := HeaderValueStart), log, c);
    } else {
      FieldDecided(push, f.(stage := HeaderFieldStart), log, c);
    }
  }

  lemma LwsAgain<L>(push: Sink<L>, f: Fields, log: L, c: char)
    requires Open(f, 2)
    ensures Exec(push, f, log, c)
            == Exec(push, f.(stage := if c == ' ' || c == '\t' then HeaderValueStart else HeaderFieldStart), log, c)
  {
  }

  lemma OpenAgain<L>(push: Sink<L>, f: Fields, log: L, c: char)
    requires f.stage == HeaderValueStart && f.headerState == Connection && (c == ' ' || c == '\t')
    ensures var m := Exec(push, f, log, c); m.Running? && if c == ' ' then Open(m.f, 0) else Decided(m.f)
  {
  }

  lemma FieldDecided<L>(push: Sink<L>, f: Fields, log: L, c: char)
    requires f.stage == HeaderFieldStart && Exec(push, f, log, c).Running?
    ensures Decided(Exec(push, f, log, c).f)
  {
    if c == '\0' {
      NulInName(push, f, log);
    } else {
      ExecSound(push, f, log, c);
    }
  }

  lemma NulInName<L>(push: Sink<L>, f: Fields, log: L)
    requires f.stage == HeaderFieldStart
    ensures Exec(push, f, log, '\0').Halted?
  {
  }

  // ---------------------------------------------------------------- the beginning

  /** A NUL that does not begin such a value leaves nothing open. */
  lemma NulPlain(f: Fields)
    requires !Bulk(f.stage) && Decided(f) && !(f.stage == HeaderValueDiscardWs && f.headerState == Connection)
    ensures NulAct(Plain(f, '\0'))
  {
    if f.stage == HeaderValueStart || f.stage == HeaderValueDiscardWs {
      NulValue(f);
    } else if InHeaders(f.stage) {
      NulHeaders(f);
    } else if InChunks(f.stage) {
      NulChunks(f);
    } else {
      LineEarly(f, '\0');
      AgainOnlyInHeaders(f, '\0');
    }
  }

  ghost predicate NulAct(a: Act) {
    a.next.Leave? || (Decided(a.f) && (a.next == Again ==> a.f.stage == HeaderFieldStart))
  }

  lemma AgainOnlyInHeaders(f: Fields, c: char)
    requires !Bulk(f.stage) && !InHeaders(f.stage)
    ensures Plain(f, c).next != Again
  {
    if Plain(f, c).next == Again {
      AgainSinks(f, c);
    }
  }

  lemma NulHeaders(f: Fields)
    requires InHeaders(f.stage) && f.stage != HeaderValueStart && f.stage != HeaderValueDiscardWs
    ensures NulAct(Headers(f, '\0'))
  {
  }

  lemma NulChunks(f: Fields)
    requires InChunks(f.stage)
    ensures NulAct(Chunks(f, '\0'))
  {
    ChunksGoOn(f, '\0');
    if f.stage == ChunkSize {
      assert Unhex('\0') == -1;
    }
  }

  lemma NulValue(f: Fields)
    requires f.headerState != Connection
    ensures var a := ValueStart(f, '\0'); a.next != Again && (a.next.Leave? || a.f.headerState != Connection)
  {
  }

  lemma {:induction false} NulExec<L>(push: Sink<L>, f: Fields, log: L)
    requires Sound(f, 1) && Decided(f) && !(f.stage == HeaderValueDiscardWs && f.headerState == Connection)
    requires Exec(push, f, log, '\0').Running?
    ensures Decided(Exec(push, f, log, '\0').f)
    decreases Rank(f.stage)
  {
    if f.stage == BodyIdentity || f.stage == ChunkData {
      NulBody(push, f, log);
    } else if f.stage == HeaderField || f.stage == HeaderValue {
      NulBulk(push, f, log);
    } else {
      NulPlain(f);
      var a := Plain(f, '\0');
      if a.next == Again {
        AgainSinks(f, '\0');
        PlainSound(f, '\0');
        NulExec(push, a.f, Noted(push, log, a));
      }
    }
  }

  lemma NulBulk<L>(push: Sink<L>, f: Fields, log: L)
    requires f.stage == HeaderField || f.stage == HeaderValue
    ensures Exec(push, f, log, '\0').Halted?
  {
  }

  lemma NulBody<L>(push: Sink<L>, f: Fields, log: L)
    requires Sound(f, 1) && (f.stage == BodyIdentity || f.stage == ChunkData) && Exec(push, f, log, '\0').Running?
    ensures Decided(Exec(push, f, log, '\0').f)
  {
    if f.stage == BodyIdentity && f.contentLength == 1 {
      NulLast(push, f.(contentLength := 0, stage := MessageDone), push(log, Data(Body, "\0")));
    }
  }

  lemma NulLast<L>(push: Sink<L>, f: Fields, log: L)
    requires f.stage == MessageDone
    ensures var m := Exec(push, f, log, '\0'); m.Running? && Decided(m.f)
  {
    MessageDoneActs(f);
    DoneExec(push, f, log, '\0');
  }

  lemma DoneExec<L>(push: Sink<L>, f: Fields, log: L, c: char)
    requires !Bulk(f.stage) && Plain(f, c).next == Done
    ensures Exec(push, f, log, c).Running? && Exec(push, f, log, c).f == Plain(f, c).f
  {
  }

  lemma MessageDoneActs(f: Fields)
    requires f.stage == MessageDone
    ensures Plain(f, '\0') == NewMessage(f) && Live(StartReq) == None
  {
  }

  lemma NulOpens<L>(push: Sink<L>, f: Fields, log: L)
    requires f.stage == HeaderValueDiscardWs && f.headerState == Connection && StepByte(push, Running(f, log), '\0').Running?
    ensures Open(StepByte(push, Running(f, log), '\0').f, 0)
  {
    if f.nread < MAX_HEADER_SIZE {
      CountedStep(push, f, f.(nread := f.nread + 1), log, '\0');
    } else {
      OverflowStep(push, f, log, '\0');
    }
  }

  /** Nothing else opens a value. */
  lemma StaysDecided<L(!new)>(push: Sink<L>, f: Fields, log: L, c: char)
    requires Sound(f, 0) && Decided(f) && StepByte(push, Running(f, log), c).Running?
    requires !(f.stage == HeaderValueDiscardWs && f.headerState == Connection && c == '\0')
    ensures Decided(StepByte(push, Running(f, log), c).f)
  {
    StepSound(push, f, log, c);
    if c == '\0' {
      if !InHeader(f.stage) {
        OutOfHeader<L>(f, c);
        FreeStep(push, f, log, c);
        NulExec(push, f, log);
      } else if f.nread < MAX_HEADER_SIZE {
        var g := f.(nread := f.nread + 1);
        CountedSound<L>(f, c);
        CountedStep(push, f, g, log, c);
        NulExec(push, g, log);
      } else {
        OverflowStep(push, f, log, c);
      }
    }
  }

  // ---------------------------------------------------------------- exactly when

  /** How far a line break in an open value has come before byte `k`; 3 when no value is open. */
  ghost function Track<L>(t: seq<Machine<L>>, data: string, k: nat): (q: nat)
    requires |t| == |data| + 1 && k <= |data|
    ensures q <= 3
  {
    if k == 0 then 3
    else
      var q := Track(t, data, k - 1);
      if q < 3 then FoldStep(q, data[k - 1]) else if Awaits(t[k - 1]) && data[k - 1] == '\0' then 0 else 3
  }

  ghost predicate Tracked<L>(m: Machine<L>, q: nat) {
    m.Running? ==> Sound(m.f, 0) && if q < 3 then Open(m.f, q) else Decided(m.f)
  }

  lemma TrackStep<L(!new)>(push: Sink<L>, m: Machine<L>, c: char, q: nat, q': nat)
    requires Tracked(m, q) && q' == if q < 3 then FoldStep(q, c) else if Awaits(m) && c == '\0' then 0 else 3
    ensures Tracked(StepByte(push, m, c), q')
  {
    if m.Running? {
      StepSound(push, m.f, m.log, c);
      if StepByte(push, m, c).Running? {
        if q < 3 {
          OpenGoesOn(push, m.f, m.log, c, q);
        } else if Awaits(m) && c == '\0' {
          NulOpens(push, m.f, m.log);
        } else {
          StaysDecided(push, m.f, m.log, c);
        }
      }
    }
  }

  lemma {:induction false} TrackSound<L(!new)>(push: Sink<L>, data: string, t: seq<Machine<L>>, k: nat)
    requires Steps(push, data, t) && At(t[0], INITIAL) && k <= |data|
    ensures Tracked(t[k], Track(t, data, k))
    decreases k
  {
    if k > 0 {
      TrackSound(push, data, t, k - 1);
      TrackNext(push, data, t, k - 1);
    } else {
      InitiallySound();
    }
  }

  lemma InitiallySound()
    ensures Sound(INITIAL, 0) && Decided(INITIAL)
  {
  }

  lemma TrackNext<L(!new)>(push: Sink<L>, data: string, t: seq<Machine<L>>, k: nat)
    requires Steps(push, data, t) && k < |data| && Tracked(t[k], Track(t, data, k))
    ensures Tracked(t[k + 1], Track(t, data, k + 1))
  {
    assert Look(k);
    TrackStep(push, t[k], data[k], Track(t, data, k), Track(t, data, k + 1));
  }

  lemma FoldMore(s: string, c: char)
    ensures Folding(s + [c]) == FoldStep(Folding(s), c)
  {
    assert (s + [c])[..|s|] == s;
  }

  /** An open value was opened by a NUL, and since then there were only such line breaks. */
  lemma {:induction false} OpenedBy<L>(data: string, t: seq<Machine<L>>, k: nat) returns (i: nat)
    requires |t| == |data| + 1 && k <= |data| && Track(t, data, k) < 3
    ensures i < k && Awaits(t[i]) && data[i] == '\0' && Folding(data[i + 1..k]) == Track(t, data, k)
    decreases k
  {
    if Track(t, data, k - 1) < 3 {
      i := OpenedBy(data, t, k - 1);
      FoldMore(data[i + 1..k - 1], data[k - 1]);
      assert data[i + 1..k] == data[i + 1..k - 1] + [data[k - 1]];
    } else {
      i := k - 1;
      assert data[i + 1..k] == "";
    }
  }

  lemma FoldShorter(s: string)
    requires s != "" && Folding(s) < 3
    ensures Folding(s[..|s| - 1]) < 3
  {
  }

  lemma {:induction false} OpenSince<L(!new)>(push: Sink<L>, data: string, t: seq<Machine<L>>, i: nat, k: nat)
    requires Steps(push, data, t) && At(t[0], INITIAL) && i < k <= |data|
    requires Awaits(t[i]) && data[i] == '\0' && Folding(data[i + 1..k]) < 3
    ensures Track(t, data, k) == Folding(data[i + 1..k])
    decreases k
  {
    if k == i + 1 {
      assert data[i + 1..k] == "";
      TrackSound(push, data, t, i);
    } else {
      assert data[i + 1..k] == data[i + 1..k - 1] + [data[k - 1]];
      FoldMore(data[i + 1..k - 1], data[k - 1]);
      assert data[i + 1..k][..k - i - 2] == data[i + 1..k - 1];
      FoldShorter(data[i + 1..k]);
      OpenSince(push, data, t, i, k - 1);
    }
  }

  lemma {:induction false} StoppedAt<L>(push: Sink<L>, data: string, t: seq<Machine<L>>, k: nat) returns (j: nat)
    requires Steps(push, data, t) && t[0].Running? && k <= |data| && t[k].Halted?
    ensures j < k && t[j].Running? && t[j + 1] == t[k]
    decreases k
  {
    assert Look(k - 1);
    if t[k - 1].Running? {
      j := k - 1;
    } else {
      j := StoppedAt(push, data, t, k - 1);
    }
  }

  lemma {:induction false} StaysStopped<L>(push: Sink<L>, data: string, t: seq<Machine<L>>, j: nat, k: nat)
    requires Steps(push, data, t) && j <= k <= |data| && t[j].Halted?
    ensures t[k] == t[j]
    decreases k
  {
    if j < k {
      StaysStopped(push, data, t, j, k - 1);
      StoppedStep(push, data, t, k - 1);
    }
  }

  lemma StoppedStep<L>(push: Sink<L>, data: string, t: seq<Machine<L>>, k: nat)
    requires Steps(push, data, t) && k < |data| && t[k].Halted?
    ensures t[k + 1] == t[k]
  {
    assert Look(k);
  }

  /** The assertion fails on exactly those inputs that give a `Connection` header a value which begins with NUL
      and, after line breaks only, goes on. */
  lemma AbortsExactly<L(!new)>(push: Sink<L>, log: L, data: string) returns (t: seq<Machine<L>>)
    ensures |t| == |data| + 1 && forall k | 0 <= k <= |data| :: t[k] == Run(push, Running(INITIAL, log), data[..k])
    ensures Run(push, Running(INITIAL, log), data) == Halted(Aborted) <==> exists i: nat, j: nat :: AbortsAt(t, data, i, j)
  {
    t := StepsOf(push, Running(INITIAL, log), data);
    forall k | 0 <= k <= |data| ensures t[k] == Run(push, Running(INITIAL, log), data[..k]) {
      StepsAre(push, Running(INITIAL, log), data, t, k);
    }
    assert data[..|data|] == data;
    if t[|data|] == Halted(Aborted) {
      var i, j := AbortFound(push, data, t);
    }
    if i: nat, j: nat :| AbortsAt(t, data, i, j) {
      AbortHappens(push, data, t, i, j);
    }
  }

  lemma AbortFound<L(!new)>(push: Sink<L>, data: string, t: seq<Machine<L>>) returns (i: nat, j: nat)
    requires Steps(push, data, t) && At(t[0], INITIAL) && t[|data|] == Halted(Aborted)
    ensures AbortsAt(t, data, i, j)
  {
    j := StoppedAt(push, data, t, |data|);
    TrackSound(push, data, t, j);
    assert Look(j);
    StepSound(push, t[j].f, t[j].log, data[j]);
    i := OpenedBy(data, t, j);
  }

  lemma AbortHappens<L(!new)>(push: Sink<L>, data: string, t: seq<Machine<L>>, i: nat, j: nat)
    requires Steps(push, data, t) && At(t[0], INITIAL) && AbortsAt(t, data, i, j)
    ensures t[|data|] == Halted(Aborted)
  {
    OpenSince(push, data, t, i, j);
    TrackSound(push, data, t, j);
    assert Look(j);
    StepSound(push, t[j].f, t[j].log, data[j]);
    StaysStopped(push, data, t, j + 1, |data|);
  }
}
