/** `http_parser_execute` (http_parser_merged.h) as it is: one call parses a whole buffer, keeps marks on
    the data that it will hand to the callbacks, and scans names, values and bodies in bulk. Each call is
    proved to do what the byte-at-a-time machine does. */
module HttpParser {
  import opened Options
  import opened HttpMethods
  import opened HttpMachine

  // ---------------------------------------------------------------- joining data

  /** Always true. It names one place where data may be joined, so that a proof takes only the places it mentions. */
  predicate Joint<L>(l: L, k: Kind, x: string, y: string) {
    true
  }

  /** Two adjacent pieces of data of one kind may be handed over as one. */
  ghost predicate Joins<L(!new)>(push: Sink<L>) {
    forall l: L, k: Kind, x: string, y: string {:trigger Joint(l, k, x, y)} ::
      Joint(l, k, x, y) ==> push(push(l, Data(k, x)), Data(k, y)) == push(l, Data(k, x + y))
  }

  lemma Join<L(!new)>(push: Sink<L>, l: L, k: Kind, x: string, y: string)
    requires Joins(push)
    ensures push(push(l, Data(k, x)), Data(k, y)) == push(l, Data(k, x + y))
  {
    assert Joint(l, k, x, y);
  }

  /** The callbacks have seen data of this kind last: an empty piece more makes no difference. */
  ghost predicate EndsIn<L>(push: Sink<L>, log: L, k: Kind) {
    push(log, Data(k, "")) == log
  }

  lemma PushedEnds<L(!new)>(push: Sink<L>, log: L, k: Kind, x: string)
    requires Joins(push)
    ensures EndsIn(push, push(log, Data(k, x)), k)
  {
    assert x + "" == x;
    Join(push, log, k, x, "");
  }

  // ---------------------------------------------------------------- marks

  datatype Marks = Marks(field: Option<nat>, value: Option<nat>, url: Option<nat>, body: Option<nat>)
  {
    function Get(k: Kind): Option<nat> {
      match k
      case Field => field
      case Value => value
      case Url => url
      case Body => body
    }

    /** `CROW_MARK` */
    function Set(k: Kind, p: nat): Marks {
      if Get(k).Some? then this
      else
        match k
        case Field => this.(field := Some(p))
        case Value => this.(value := Some(p))
        case Url => this.(url := Some(p))
        case Body => this.(body := Some(p))
    }

    function Clear(k: Kind): Marks {
      match k
      case Field => this.(field := None)
      case Value => this.(value := None)
      case Url => this.(url := None)
      case Body => this.(body := None)
    }
  }

  const NO_MARKS := Marks(None, None, None, None)

  predicate InBody(s: Stage) {
    s == BodyIdentity || s == ChunkData || s == ChunkDataAlmostDone
  }

  /** At most one mark is set: that of the data the parser is in the middle of. */
  ghost predicate Placed(marks: Marks, s: Stage, p: nat) {
    match Live(s)
    case Some(k) => marks.Get(k).Some? && marks.Get(k).value <= p && marks == NO_MARKS.Set(k, marks.Get(k).value)
    case None =>
      || marks == NO_MARKS
      || (InBody(s) && marks.body.Some? && marks.body.value < p && marks == NO_MARKS.Set(Body, marks.body.value))
  }

  /** The log once the marked data has been handed over. */
  ghost function WithPending<L(!new)>(push: Sink<L>, log: L, marks: Marks, data: string, p: nat): L
    requires p <= |data|
  {
    Pending(push, Pending(push, Pending(push, Pending(push, log, Field, marks.field, data, p), Value, marks.value, data, p),
                    Url, marks.url, data, p), Body, marks.body, data, p)
  }

  ghost function Pending<L(!new)>(push: Sink<L>, log: L, k: Kind, mark: Option<nat>, data: string, p: nat): L
    requires p <= |data|
  {
    if mark.Some? && mark.value <= p then push(log, Data(k, data[mark.value..p])) else log
  }

  lemma PendingOne<L(!new)>(push: Sink<L>, log: L, k: Kind, m: nat, data: string, p: nat)
    requires m <= p <= |data|
    ensures WithPending(push, log, NO_MARKS.Set(k, m), data, p) == push(log, Data(k, data[m..p]))
  {
  }

  /** One more byte of the marked data. */
  lemma PendingGrows<L(!new)>(push: Sink<L>, log: L, k: Kind, m: nat, data: string, p: nat)
    requires Joins(push) && m <= p < |data|
    ensures WithPending(push, log, NO_MARKS.Set(k, m), data, p + 1)
            == push(WithPending(push, log, NO_MARKS.Set(k, m), data, p), Data(k, [data[p]]))
  {
    PendingOne(push, log, k, m, data, p);
    PendingOne(push, log, k, m, data, p + 1);
    assert data[m..p + 1] == data[m..p] + [data[p]];
    Join(push, log, k, data[m..p], [data[p]]);
  }

  /** The parser is between two calls: if it is in the middle of some data, part of it has been seen. */
  ghost predicate Between<L>(push: Sink<L>, log: L, s: Stage) {
    Live(s).Some? ==> EndsIn(push, log, Live(s).value)
  }

  // ---------------------------------------------------------------- the byte machine, in bulk

  /** Always true. It names the step from byte `i` to the next one, so that a proof takes only the steps it mentions. */
  predicate Look(i: nat) {
    true
  }

  /** `t[i]` is the byte machine before byte `i`. */
  ghost predicate Traces<L(!new)>(push: Sink<L>, data: string, t: seq<Machine<L>>) {
    && Joins(push) && |t| == |data| + 1
    && forall i: nat {:trigger Look(i)} | i < |data| :: Look(i) ==> t[i + 1] == StepByte(push, t[i], data[i])
  }

  lemma {:induction false} TraceOf<L(!new)>(push: Sink<L>, m: Machine<L>, data: string) returns (t: seq<Machine<L>>)
    requires Joins(push)
    ensures Traces(push, data, t) && t[0] == m && t[|data|] == Run(push, m, data)
    decreases |data|
  {
    if data == "" {
      t := [m];
    } else {
      var init := data[..|data| - 1];
      var t0 := TraceOf(push, m, init);
      t := t0 + [Run(push, m, data)];
      forall i: nat | i < |data| && Look(i) ensures t[i + 1] == StepByte(push, t[i], data[i]) {
        if i < |init| {
          assert Look(i) && init[i] == data[i];
        }
      }
    }
  }

  /** A machine that has stopped stays stopped. */
  lemma {:induction false} StopsForGood<L(!new)>(push: Sink<L>, data: string, t: seq<Machine<L>>, p: nat)
    requires Traces(push, data, t) && p <= |data| && t[p].Halted?
    ensures t[|data|].Halted?
    decreases |data| - p
  {
    if p < |data| {
      assert Look(p);
      StopsForGood(push, data, t, p + 1);
    }
  }

  /** What a case of the switch may do to marks: data is marked when it begins, and handed over when it ends. */
  predicate MarksWell(s: Stage, a: Act) {
    match a.next
    case Leave(_) => true
    case Again =>
      && Live(s) == None && Live(a.f.stage) == None && !InBody(s) && !Bulk(a.f.stage)
      && ((a.mark == None && a.flush == None) || (a.mark == a.flush == Some(Value) && a.note == None))
    case Done =>
      if Live(a.f.stage).Some? then
        && a.flush == None && a.note == None && !InBody(s)
        && if Live(s).Some? then Live(s) == Live(a.f.stage) && a.mark == None else a.mark == Live(a.f.stage)
      else if Live(s).Some? then a.mark == None && a.flush == Live(s) && a.note == None && !InBody(a.f.stage)
      else if InBody(s) then a.mark == None && a.flush == Some(Body) && a.note == None && !InBody(a.f.stage)
      else a.mark == None && a.flush == None
  }

  lemma PlainMarks(f: Fields, c: char)
    requires !Bulk(f.stage)
    ensures MarksWell(f.stage, Plain(f, c))
  {
    if InHeaders(f.stage) {
      HeadersMarks(f, c);
    } else if InChunks(f.stage) {
      ChunksMarks(f, c);
    } else if f.stage == ReqSpacesBeforeUrl || Live(f.stage) == Some(Url) {
      UrlMarks(f, c);
    } else {
      LineMarks(f, c);
    }
  }

  lemma UrlMarks(f: Fields, c: char)
    requires f.stage == ReqSpacesBeforeUrl || Live(f.stage) == Some(Url)
    ensures MarksWell(f.stage, RequestLine(f, c))
  {
    UrlStays(if f.stage == ReqSpacesBeforeUrl && f.method_ == CONNECT then ReqServerStart else f.stage, c);
  }

  lemma UrlStays(s: Stage, c: char)
    ensures ParseUrlChar(s, c) == Dead || Live(ParseUrlChar(s, c)) == Some(Url)
  {
  }

  lemma LineMarks(f: Fields, c: char)
    requires !Bulk(f.stage) && !InHeaders(f.stage) && !InChunks(f.stage)
    requires Live(f.stage) == None && f.stage != ReqSpacesBeforeUrl
    ensures MarksWell(f.stage, RequestLine(f, c))
  {
  }

  lemma ValueStartMarks(f: Fields, c: char)
    ensures var a := ValueStart(f, c);
            a.next.Leave? || (a.next == Done && a.f.stage == HeaderValue && a.mark == Some(Value) && a.flush == None && a.note == None)
  {
  }

  lemma HeadersMarks(f: Fields, c: char)
    requires InHeaders(f.stage)
    ensures MarksWell(f.stage, Headers(f, c))
  {
    if f.stage == HeaderValueStart || f.stage == HeaderValueDiscardWs {
      ValueStartMarks(f, c);
    } else if f.stage == HeaderValueLws {
      LwsMarks(f, c);
    } else if f.stage == HeaderFieldStart {
      FieldStartMarks(f, c);
    } else {
      OtherHeadersMarks(f, c);
    }
  }

  lemma LwsMarks(f: Fields, c: char)
    ensures MarksWell(HeaderValueLws, ValueLws(f, c))
  {
  }

  lemma FieldStartMarks(f: Fields, c: char)
    ensures MarksWell(HeaderFieldStart, FieldStart(f, c))
  {
  }

  lemma OtherHeadersMarks(f: Fields, c: char)
    requires InHeaders(f.stage) && f.stage != HeaderValueStart && f.stage != HeaderValueDiscardWs && f.stage != HeaderValueLws
    requires f.stage != HeaderFieldStart
    ensures MarksWell(f.stage, Headers(f, c))
  {
  }

  lemma ChunksMarks(f: Fields, c: char)
    requires InChunks(f.stage)
    ensures MarksWell(f.stage, Chunks(f, c))
  {
  }

  // ---------------------------------------------------------------- one case of the switch, with marks

  /** What a case does with the log and the marks of the real parser, at byte `q`. */
  ghost function Interpreted<L(!new)>(push: Sink<L>, log: L, marks: Marks, a: Act, data: string, q: nat): (L, Marks)
    requires q <= |data|
  {
    var m := if a.mark.Some? then marks.Set(a.mark.value, q) else marks;
    var log' := if a.flush.Some? then Pending(push, log, a.flush.value, m.Get(a.flush.value), data, q) else log;
    (PushNote(push, log', a.note), if a.flush.Some? then m.Clear(a.flush.value) else m)
  }

  lemma PlainDone<L(!new)>(push: Sink<L>, s: Stage, a: Act, log: L, marks: Marks, data: string, q: nat)
    requires Joins(push) && q < |data| && MarksWell(s, a) && Placed(marks, s, q) && a.next == Done
    ensures var (log', marks') := Interpreted(push, log, marks, a, data, q);
            && Placed(marks', a.f.stage, q + 1)
            && Taken(push, Noted(push, WithPending(push, log, marks, data, q), a), a.f.stage, data[q]) == WithPending(push, log', marks', data, q + 1)
  {
    if Live(a.f.stage).Some? {
      var k := Live(a.f.stage).value;
      if Live(s).Some? {
        PendingGrows(push, log, k, marks.Get(k).value, data, q);
      } else {
        PendingOne(push, log, k, q, data, q + 1);
        assert data[q..q + 1] == [data[q]];
      }
    }
  }

  lemma PlainAgain<L(!new)>(push: Sink<L>, s: Stage, a: Act, log: L, marks: Marks, data: string, q: nat)
    requires q < |data| && MarksWell(s, a) && Placed(marks, s, q) && a.next == Again
    ensures var (log', marks') := Interpreted(push, log, marks, a, data, q);
            && Placed(marks', a.f.stage, q)
            && Noted(push, WithPending(push, log, marks, data, q), a) == WithPending(push, log', marks', data, q)
  {
    assert marks == NO_MARKS && data[q..q] == "";
    assert NO_MARKS.Set(Value, q).Clear(Value) == NO_MARKS;
    assert forall l: L :: WithPending(push, l, NO_MARKS, data, q) == l;
  }

  // ---------------------------------------------------------------- bulk scans of a header

  /** A scan that began at byte `q` has passed all bytes before `i`. `f` has counted the first one only;
      the byte machine has counted each of them, and has stopped if they are too many. */
  ghost predicate Scanned<L(!new)>(push: Sink<L>, data: string, t: seq<Machine<L>>, q: nat, i: nat, f: Fields, log: L, mark: nat) {
    && q < |data| && q <= i <= |data| && |t| == |data| + 1 && mark <= i
    && (f.stage == HeaderField || f.stage == HeaderValue) && 1 <= f.nread <= MAX_HEADER_SIZE
    && if f.nread - 1 + (i - q) <= MAX_HEADER_SIZE then
         t[i] == Running(f.(nread := f.nread - 1 + (i - q)), Pushed(push, log, f.stage, data[mark..i]))
       else t[i].Halted?
  }

  /** The log with the data of a name or value so far. */
  ghost function Pushed<L(!new)>(push: Sink<L>, log: L, s: Stage, bytes: string): L {
    push(log, Data(if s == HeaderField then Field else Value, bytes))
  }

  lemma PushedGrows<L(!new)>(push: Sink<L>, log: L, s: Stage, data: string, mark: nat, i: nat)
    requires Joins(push) && mark <= i < |data|
    ensures Pushed(push, log, s, data[mark..i + 1])
            == push(Pushed(push, log, s, data[mark..i]), Data(if s == HeaderField then Field else Value, [data[i]]))
  {
    assert data[mark..i + 1] == data[mark..i] + [data[i]];
    Join(push, log, if s == HeaderField then Field else Value, data[mark..i], [data[i]]);
  }

  /** What the byte machine does with the next byte. */
  lemma ScanNext<L(!new)>(push: Sink<L>, data: string, t: seq<Machine<L>>, q: nat, i: nat, f: Fields, log: L, mark: nat)
    requires Traces(push, data, t) && Scanned(push, data, t, q, i, f, log, mark) && i < |data|
    ensures f.nread + (i - q) > MAX_HEADER_SIZE ==> t[i + 1].Halted?
    ensures f.nread + (i - q) <= MAX_HEADER_SIZE ==>
              t[i + 1]
              == StepByte(push, Running(f.(nread := f.nread - 1 + (i - q)), Pushed(push, log, f.stage, data[mark..i])), data[i])
  {
    assert Look(i);
  }

  lemma StepName<L(!new)>(push: Sink<L>, f: Fields, log: L, c: char)
    requires f.stage == HeaderField && f.nread < MAX_HEADER_SIZE
    ensures var g := f.(nread := f.nread + 1);
            StepByte(push, Running(f, log), c)
            == if IsToken(c) then Took(push, g, FieldChar(ScanOf(f), c), log, Field, c)
               else if c == ':' then Running(g.(stage := HeaderValueDiscardWs), log)
               else Halted(Error(INVALID_HEADER_TOKEN))
  {
  }

  lemma StepValue<L(!new)>(push: Sink<L>, f: Fields, log: L, c: char)
    requires f.stage == HeaderValue && f.nread < MAX_HEADER_SIZE
    ensures var g := f.(nread := f.nread + 1);
            StepByte(push, Running(f, log), c)
            == if c == CR then Running(g.(stage := HeaderAlmostDone), log)
               else if c == LF then Exec(push, g.(stage := HeaderAlmostDone), log, c)
               else Took(push, g, ValueChar(ScanOf(f), c), log, Value, c)
  {
  }

  /** A general name or value is scanned without looking further. */
  lemma {:induction false} ScanGeneral<L(!new)>(push: Sink<L>, data: string, t: seq<Machine<L>>, q: nat, i: nat, j: nat, f: Fields, log: L, mark: nat)
    requires Traces(push, data, t) && Scanned(push, data, t, q, i, f, log, mark) && i <= j <= |data| && f.headerState == General
    requires (f.stage == HeaderField && forall k | i <= k < j :: IsToken(data[k]))
          || (f.stage == HeaderValue && forall k | i <= k < j :: Ordinary(data[k]))
    ensures Scanned(push, data, t, q, j, f, log, mark)
    decreases j - i
  {
    if i < j {
      assert WithScan(f, ScanOf(f)) == f;
      if f.stage == HeaderField {
        ScanField(push, data, t, q, i, f, log, mark);
      } else {
        ScanValue(push, data, t, q, i, f, log, mark);
      }
      ScanGeneral(push, data, t, q, i + 1, j, f, log, mark);
    }
  }

  lemma ScanField<L(!new)>(push: Sink<L>, data: string, t: seq<Machine<L>>, q: nat, i: nat, f: Fields, log: L, mark: nat)
    requires Traces(push, data, t) && Scanned(push, data, t, q, i, f, log, mark) && i < |data| && f.stage == HeaderField && IsToken(data[i])
    ensures match FieldChar(ScanOf(f), data[i])
            case Ok(s) => Scanned(push, data, t, q, i + 1, WithScan(f, s), log, mark)
            case Bad(_) => t[i + 1].Halted?
  {
    ScanNext(push, data, t, q, i, f, log, mark);
    if f.nread + (i - q) <= MAX_HEADER_SIZE {
      StepName(push, f.(nread := f.nread - 1 + (i - q)), Pushed(push, log, f.stage, data[mark..i]), data[i]);
    }
    PushedGrows(push, log, f.stage, data, mark, i);
  }

  /** The scan of a name ends at a byte that is no token. */
  lemma FieldEnds<L(!new)>(push: Sink<L>, data: string, t: seq<Machine<L>>, q: nat, i: nat, f: Fields, log: L, mark: nat)
    requires Traces(push, data, t) && Scanned(push, data, t, q, i, f, log, mark) && i < |data| && f.stage == HeaderField
    requires !IsToken(data[i])
    ensures if f.nread + (i - q) <= MAX_HEADER_SIZE && data[i] == ':' then
              t[i + 1] == Running(f.(nread := f.nread + (i - q), stage := HeaderValueDiscardWs),
                                  push(log, Data(Field, data[mark..i])))
            else t[i + 1].Halted?
  {
    ScanNext(push, data, t, q, i, f, log, mark);
    if f.nread + (i - q) <= MAX_HEADER_SIZE {
      StepName(push, f.(nread := f.nread - 1 + (i - q)), Pushed(push, log, f.stage, data[mark..i]), data[i]);
    }
  }

  lemma ScanValue<L(!new)>(push: Sink<L>, data: string, t: seq<Machine<L>>, q: nat, i: nat, f: Fields, log: L, mark: nat)
    requires Traces(push, data, t) && Scanned(push, data, t, q, i, f, log, mark) && i < |data| && f.stage == HeaderValue
    requires data[i] != CR && data[i] != LF
    ensures match ValueChar(ScanOf(f), data[i])
            case Ok(s) => Scanned(push, data, t, q, i + 1, WithScan(f, s), log, mark)
            case Bad(_) => t[i + 1].Halted?
  {
    ScanNext(push, data, t, q, i, f, log, mark);
    if f.nread + (i - q) <= MAX_HEADER_SIZE {
      StepValue(push, f.(nread := f.nread - 1 + (i - q)), Pushed(push, log, f.stage, data[mark..i]), data[i]);
    }
    PushedGrows(push, log, f.stage, data, mark, i);
  }

  /** A general value is scanned for at most MAX_HEADER_SIZE bytes at a time. When that is not enough, the
      source steps over the next byte unseen; the byte machine has stopped by then. */
  lemma ScanSkip<L(!new)>(push: Sink<L>, data: string, t: seq<Machine<L>>, q: nat, i: nat, j: nat, f: Fields, log: L, mark: nat)
    requires Traces(push, data, t) && Scanned(push, data, t, q, i, f, log, mark) && f.headerState == General && f.stage == HeaderValue
    requires i <= j < |data| && (forall k | i <= k < j :: Ordinary(data[k])) && (Ordinary(data[j]) || j == i + MAX_HEADER_SIZE)
    ensures Scanned(push, data, t, q, j + 1, f, log, mark)
  {
    ScanGeneral(push, data, t, q, i, j, f, log, mark);
    if Ordinary(data[j]) {
      ScanGeneral(push, data, t, q, j, j + 1, f, log, mark);
    } else {
      ScanNext(push, data, t, q, j, f, log, mark);
    }
  }

  predicate Ordinary(c: char) {
    IsHeaderChar(c) && c != CR && c != LF
  }

  lemma ValueEnds<L(!new)>(push: Sink<L>, data: string, t: seq<Machine<L>>, q: nat, i: nat, f: Fields, log: L, mark: nat)
    requires Traces(push, data, t) && Scanned(push, data, t, q, i, f, log, mark) && i < |data| && f.stage == HeaderValue
    requires data[i] == CR || data[i] == LF
    ensures if f.nread + (i - q) > MAX_HEADER_SIZE then t[i + 1].Halted?
            else
              var g := f.(nread := f.nread + (i - q), stage := HeaderAlmostDone);
              t[i + 1] == if data[i] == CR then Running(g, push(log, Data(Value, data[mark..i])))
                          else Exec(push, g, push(log, Data(Value, data[mark..i])), LF)
  {
    ScanNext(push, data, t, q, i, f, log, mark);
    if f.nread + (i - q) <= MAX_HEADER_SIZE {
      StepValue(push, f.(nread := f.nread - 1 + (i - q)), Pushed(push, log, f.stage, data[mark..i]), data[i]);
    }
  }

  // ---------------------------------------------------------------- bodies in bulk

  /** Body marks and logs: before the case for a body has run, and after it. */
  lemma BodyMarked<L(!new)>(push: Sink<L>, log: L, marks: Marks, s: Stage, data: string, q: nat) returns (mark: nat)
    requires Placed(marks, s, q) && InBody(s) && q < |data|
    ensures marks.Set(Body, q) == NO_MARKS.Set(Body, mark) && mark <= q
    ensures WithPending(push, log, marks, data, q) == BodyLog(push, log, mark, data, q)
  {
    mark := marks.Set(Body, q).body.value;
  }

  lemma BodyPending<L(!new)>(push: Sink<L>, log: L, mark: nat, s: Stage, data: string, i: nat)
    requires mark < i <= |data| && InBody(s)
    ensures Placed(NO_MARKS.Set(Body, mark), s, i)
    ensures WithPending(push, log, NO_MARKS.Set(Body, mark), data, i) == BodyLog(push, log, mark, data, i)
  {
  }

  predicate ReadsBody(f: Fields) {
    (f.stage == BodyIdentity || (f.stage == ChunkData && f.flags.chunked)) && Readable(f.contentLength)
  }

  /** The log with body data marked at `mark` or, if there is none yet, without. */
  ghost function BodyLog<L(!new)>(push: Sink<L>, log: L, mark: nat, data: string, i: nat): L
    requires mark <= i <= |data|
  {
    if mark == i then log else push(log, Data(Body, data[mark..i]))
  }

  lemma BodyLogGrows<L(!new)>(push: Sink<L>, log: L, mark: nat, data: string, i: nat)
    requires Joins(push) && mark <= i < |data|
    ensures BodyLog(push, log, mark, data, i + 1) == push(BodyLog(push, log, mark, data, i), Data(Body, [data[i]]))
  {
    assert data[mark..i + 1] == data[mark..i] + [data[i]];
    if mark == i {
      assert data[mark..i + 1] == [data[i]];
    } else {
      Join(push, log, Body, data[mark..i], [data[i]]);
    }
  }

  /** Bytes of a body that are not its last ones only count down. */
  lemma {:induction false} BodyRun<L(!new)>(push: Sink<L>, data: string, t: seq<Machine<L>>, q: nat, i: nat, f: Fields, log: L, mark: nat)
    requires Traces(push, data, t) && mark <= q <= i <= |data| && ReadsBody(f) && i - q < f.contentLength
    requires t[q] == Running(f, BodyLog(push, log, mark, data, q))
    ensures t[i] == Running(f.(contentLength := f.contentLength - (i - q)), BodyLog(push, log, mark, data, i))
    decreases i
  {
    if i > q {
      BodyRun(push, data, t, q, i - 1, f, log, mark);
      BodyNext(push, data, t, i - 1, f.(contentLength := f.contentLength - (i - 1 - q)), log, mark);
    }
  }

  lemma BodyNext<L(!new)>(push: Sink<L>, data: string, t: seq<Machine<L>>, i: nat, f: Fields, log: L, mark: nat)
    requires Traces(push, data, t) && mark <= i < |data| && ReadsBody(f) && 1 < f.contentLength
    requires t[i] == Running(f, BodyLog(push, log, mark, data, i))
    ensures t[i + 1] == Running(f.(contentLength := f.contentLength - 1), BodyLog(push, log, mark, data, i + 1))
  {
    assert Look(i);
    StepBody(push, f, BodyLog(push, log, mark, data, i), data[i]);
    BodyLogGrows(push, log, mark, data, i);
  }

  /** The last byte of a body or chunk. */
  lemma LastByte<L(!new)>(push: Sink<L>, data: string, t: seq<Machine<L>>, i: nat, f: Fields, log: L, mark: nat)
    requires Traces(push, data, t) && mark <= i < |data| && ReadsBody(f) && f.contentLength == 1
    requires t[i] == Running(f, BodyLog(push, log, mark, data, i))
    ensures t[i + 1] == if f.stage == ChunkData
                        then Running(f.(contentLength := 0, stage := ChunkDataAlmostDone), BodyLog(push, log, mark, data, i + 1))
                        else Running(f.(contentLength := 0, stage := StartReq), push(BodyLog(push, log, mark, data, i + 1), MessageComplete))
  {
    assert Look(i);
    BodyLogGrows(push, log, mark, data, i);
    if f.stage == ChunkData {
      StepLastChunkByte(push, f, BodyLog(push, log, mark, data, i), data[i]);
    } else {
      StepLastBodyByte(push, f, BodyLog(push, log, mark, data, i), data[i]);
    }
  }

  /** The body does not end in this buffer. */
  lemma BodyGoesOn<L(!new)>(push: Sink<L>, data: string, t: seq<Machine<L>>, q: nat, f: Fields, log: L, marks: Marks, mark: nat)
    requires Traces(push, data, t) && q < |data| && ReadsBody(f) && |data| - q < f.contentLength
    requires Placed(marks, f.stage, q) && t[q] == Running(f, WithPending(push, log, marks, data, q))
    requires mark == marks.Set(Body, q).body.value
    ensures t[|data|] == Running(f.(contentLength := f.contentLength - (|data| - q)),
                                 WithPending(push, log, marks.Set(Body, q), data, |data|))
    ensures Placed(marks.Set(Body, q), f.stage, |data|)
  {
    var k := BodyMarked(push, log, marks, f.stage, data, q);
    BodyRun(push, data, t, q, |data|, f, log, mark);
    BodyPending(push, log, mark, f.stage, data, |data|);
  }

  /** The body ends at byte `i`. */
  lemma BodyIsRead<L(!new)>(push: Sink<L>, data: string, t: seq<Machine<L>>, q: nat, i: nat, f: Fields, log: L, marks: Marks, mark: nat)
    requires Traces(push, data, t) && q < |data| && ReadsBody(f) && i == q + f.contentLength - 1 < |data|
    requires Placed(marks, f.stage, q) && t[q] == Running(f, WithPending(push, log, marks, data, q))
    requires mark == marks.Set(Body, q).body.value
    ensures marks.Set(Body, q) == NO_MARKS.Set(Body, mark) && mark <= q
    ensures f.stage == BodyIdentity ==>
              t[i + 1] == Running(f.(contentLength := 0, stage := StartReq), push(BodyLog(push, log, mark, data, i + 1), MessageComplete))
    ensures f.stage == ChunkData ==>
              && t[i + 1] == Running(f.(contentLength := 0, stage := ChunkDataAlmostDone),
                                     WithPending(push, log, marks.Set(Body, q), data, i + 1))
              && Placed(marks.Set(Body, q), ChunkDataAlmostDone, i + 1)
  {
    var k := BodyMarked(push, log, marks, f.stage, data, q);
    BodyRun(push, data, t, q, i, f, log, mark);
    LastByte(push, data, t, i, f.(contentLength := 1), log, mark);
    BodyPending(push, log, mark, ChunkDataAlmostDone, data, i + 1);
  }

  lemma StepBody<L(!new)>(push: Sink<L>, f: Fields, log: L, c: char)
    requires f.stage == BodyIdentity || (f.stage == ChunkData && f.flags.chunked)
    requires 1 < f.contentLength && Readable(f.contentLength)
    ensures StepByte(push, Running(f, log), c) == Running(f.(contentLength := f.contentLength - 1), push(log, Data(Body, [c])))
  {
  }

  lemma StepAborts<L(!new)>(push: Sink<L>, f: Fields, log: L, c: char)
    requires (f.stage == BodyIdentity || f.stage == ChunkData) && !ReadsBody(f)
    ensures StepByte(push, Running(f, log), c) == Halted(Aborted)
  {
  }

  lemma StepLastChunkByte<L(!new)>(push: Sink<L>, f: Fields, log: L, c: char)
    requires f.stage == ChunkData && f.flags.chunked && f.contentLength == 1
    ensures StepByte(push, Running(f, log), c)
            == Running(f.(contentLength := 0, stage := ChunkDataAlmostDone), push(log, Data(Body, [c])))
  {
  }

  lemma StepLastBodyByte<L(!new)>(push: Sink<L>, f: Fields, log: L, c: char)
    requires f.stage == BodyIdentity && f.contentLength == 1
    ensures StepByte(push, Running(f, log), c)
            == Running(f.(contentLength := 0, stage := StartReq), push(push(log, Data(Body, [c])), MessageComplete))
  {
    ExecMessageDone(push, f.(contentLength := 0, stage := MessageDone), push(log, Data(Body, [c])), c);
  }

  lemma ExecMessageDone<L(!new)>(push: Sink<L>, f: Fields, log: L, c: char)
    requires f.stage == MessageDone
    ensures Exec(push, f, log, c) == Running(f.(stage := StartReq), push(log, MessageComplete))
  {
  }

  // ---------------------------------------------------------------- the parser

  function Min(a: nat, b: nat): nat {
    if a < b then a else b
  }

  class Parser<L(!new)> {
    const push: Sink<L>          // what the callbacks do to `sink`
    var f: Fields                // the fields of `http_parser`
    var errno: Option<Errno>     // `http_errno`; nothing stands for CHPE_OK
    var sink: L

    constructor (push: Sink<L>, sink: L)
      ensures f == INITIAL && errno == None && this.sink == sink && this.push == push
    {
      this.push, this.sink := push, sink;
      f, errno := INITIAL, None;
    }

    /** The byte machine has read all bytes before `q`, and is where the parser is. */
    ghost predicate Before(data: string, t: seq<Machine<L>>, q: nat, marks: Marks)
      reads this
    {
      && q <= |data| && |t| == |data| + 1 && Placed(marks, f.stage, q)
      && t[q] == Running(f, WithPending(push, sink, marks, data, q))
    }

    /** Both are about to run the switch on byte `q`. */
    ghost predicate At(data: string, t: seq<Machine<L>>, q: nat, marks: Marks)
      reads this
    {
      && q < |data| && |t| == |data| + 1 && Placed(marks, f.stage, q) && !Bulk(f.stage)
      && t[q + 1] == Exec(push, f, WithPending(push, sink, marks, data, q), data[q])
    }

    /** One turn of the loop has read the bytes from `q` up to and with `i`. */
    ghost predicate Turned(data: string, t: seq<Machine<L>>, q: nat, i: nat, marks: Marks, halt: Option<Halt>)
      requires |t| == |data| + 1
      reads this
    {
      if halt == None then q <= i < |data| && Before(data, t, i + 1, marks) else Stopped(data, t, halt)
    }

    /** The parser stops, and so has the byte machine. */
    ghost predicate Stopped(data: string, t: seq<Machine<L>>, halt: Option<Halt>)
      reads this
    {
      && halt.Some? && |t| == |data| + 1 && t[|data|].Halted?
      && (halt.value.Error? ==> errno == Some(halt.value.errno))
    }

    method Notify(e: Event)
      modifies this`sink
      ensures sink == push(old(sink), e)
    {
      sink := push(sink, e);
    }

    /** `CROW_CALLBACK_DATA`, with the data before byte `p`. */
    method HandOver(k: Kind, marks: Marks, data: string, p: nat) returns (marks': Marks)
      requires p <= |data| && (marks.Get(k).Some? ==> marks.Get(k).value <= p)
      modifies this`sink
      ensures sink == Pending(push, old(sink), k, marks.Get(k), data, p)
      ensures marks' == marks.Clear(k)
    {
      if marks.Get(k).Some? {
        Notify(Data(k, data[marks.Get(k).value..p]));
      }
      marks' := marks.Clear(k);
    }

    /** `CROW_COUNT_HEADER_SIZE` */
    method CountHeaderSize(v: nat) returns (over: bool)
      modifies this`f, this`errno
      ensures f == old(f).(nread := old(f).nread + v) && (over <==> f.nread > MAX_HEADER_SIZE)
      ensures errno == if over then Some(HEADER_OVERFLOW) else old(errno)
    {
      f := f.(nread := f.nread + v);
      over := f.nread > MAX_HEADER_SIZE;
      if over {
        errno := Some(HEADER_OVERFLOW);
      }
    }

    method Stop(e: Errno, data: string, ghost i: nat, ghost t: seq<Machine<L>>) returns (halt: Option<Halt>)
      requires Traces(push, data, t) && i < |data| && t[i + 1].Halted?
      modifies this`errno
      ensures Stopped(data, t, halt)
    {
      StopsForGood(push, data, t, i + 1);
      errno := Some(e);
      halt := Some(Error(e));
    }

    method StopWith(h: Halt, data: string, ghost i: nat, ghost t: seq<Machine<L>>) returns (halt: Option<Halt>)
      requires Traces(push, data, t) && i < |data| && t[i + 1].Halted?
      modifies this`errno
      ensures Stopped(data, t, halt)
    {
      StopsForGood(push, data, t, i + 1);
      if h.Error? {
        errno := Some(h.errno);
      }
      halt := Some(h);
    }

    /** `CROW_COUNT_HEADER_SIZE` after a scan up to byte `i`, where the bytes before it are counted again. */
    method CountScanned(data: string, q: nat, i: nat, mark: nat, ghost t: seq<Machine<L>>) returns (halt: Option<Halt>)
      requires Traces(push, data, t) && Scanned(push, data, t, q, i + 1, f, sink, mark) && q <= i
      modifies this`f, this`errno
      ensures f.stage == old(f.stage)
      ensures halt == None ==> Before(data, t, i + 1, NO_MARKS.Set(Live(f.stage).value, mark)) && errno == old(errno)
      ensures halt != None ==> Stopped(data, t, halt)
    {
      halt := None;
      PendingOne(push, sink, Live(f.stage).value, mark, data, i + 1);
      var over := CountHeaderSize(i - q);
      if over {
        halt := Stop(HEADER_OVERFLOW, data, i, t);
      }
    }

    /** The inner loop for the name of a header that the parser does not know. */
    method SkipTokens(data: string, i: nat) returns (j: nat)
      requires i < |data| && IsToken(data[i])
      ensures i <= j < |data| && forall k | i <= k <= j :: IsToken(data[k])
    {
      j := i;
      var pe := i + Min(|data| - i, MAX_HEADER_SIZE);
      while j + 1 < pe && IsToken(data[j + 1])
        invariant i <= j < pe <= |data| && forall k | i <= k <= j :: IsToken(data[k])
      {
        j := j + 1;
      }
    }

    method FieldGeneral(data: string, q: nat, i: nat, mark: nat, ghost t: seq<Machine<L>>) returns (j: nat)
      requires Traces(push, data, t) && Scanned(push, data, t, q, i, f, sink, mark) && f.stage == HeaderField
      requires i < |data| && IsToken(data[i]) && f.headerState == General
      ensures i <= j < |data| && Scanned(push, data, t, q, j + 1, f, sink, mark)
    {
      j := SkipTokens(data, i);
      ScanGeneral(push, data, t, q, i, j + 1, f, sink, mark);
    }

    method FieldByte(data: string, q: nat, i: nat, mark: nat, ghost t: seq<Machine<L>>) returns (halt: Option<Halt>)
      requires Traces(push, data, t) && Scanned(push, data, t, q, i, f, sink, mark) && f.stage == HeaderField
      requires i < |data| && IsToken(data[i])
      modifies this`f, this`errno
      ensures halt == None ==> Scanned(push, data, t, q, i + 1, f, sink, mark) && f.stage == HeaderField && errno == old(errno)
      ensures halt != None ==> Stopped(data, t, halt)
    {
      halt := None;
      ScanField(push, data, t, q, i, f, sink, mark);
      match FieldChar(ScanOf(f), data[i])
      case Ok(s) => f := WithScan(f, s);
      case Bad(h) => halt := StopWith(h, data, i, t);
    }

    method FieldEnd(data: string, q: nat, i: nat, mark: nat, ghost t: seq<Machine<L>>)
      returns (halt: Option<Halt>)
      requires Traces(push, data, t) && Scanned(push, data, t, q, i, f, sink, mark) && f.stage == HeaderField
      requires i < |data| && !IsToken(data[i])
      modifies this`f, this`errno, this`sink
      ensures halt == None ==> Before(data, t, i + 1, NO_MARKS) && errno == old(errno)
      ensures halt != None ==> Stopped(data, t, halt)
    {
      halt := None;
      FieldEnds(push, data, t, q, i, f, sink, mark);
      var over := CountHeaderSize(i - q);
      if over {
        halt := Stop(HEADER_OVERFLOW, data, i, t);
      } else if data[i] == ':' {
        f := f.(stage := HeaderValueDiscardWs);
        Notify(Data(Field, data[mark..i]));
      } else {
        halt := Stop(INVALID_HEADER_TOKEN, data, i, t);
      }
    }

    /** The case for a header's name. */
    method FieldBytes(data: string, q: nat, mark: nat, ghost t: seq<Machine<L>>)
      returns (i: nat, marks': Marks, halt: Option<Halt>)
      requires Traces(push, data, t) && Scanned(push, data, t, q, q, f, sink, mark) && f.stage == HeaderField
      modifies this`f, this`errno, this`sink
      ensures Turned(data, t, q, i, marks', halt) && (halt == None ==> errno == old(errno))
    {
      i, marks', halt := q, NO_MARKS, None;
      while i < |data| && IsToken(data[i])
        invariant Scanned(push, data, t, q, i, f, sink, mark) && f.stage == HeaderField && errno == old(errno)
      {
        if f.headerState == General {
          i := FieldGeneral(data, q, i, mark, t);
        } else {
          halt := FieldByte(data, q, i, mark, t);
          if halt != None {
            return;
          }
        }
        i := i + 1;
      }
      if i == |data| {
        i := i - 1;
        marks' := NO_MARKS.Set(Field, mark);
        halt := CountScanned(data, q, i, mark, t);
      } else {
        halt := FieldEnd(data, q, i, mark, t);
      }
    }

    /** The inner loop for the value of a header that the parser does not know. */
    method SkipValue(data: string, i: nat) returns (j: nat, bad: bool)
      requires i < |data| && Ordinary(data[i])
      ensures i <= j < |data| && forall k | i <= k < j :: Ordinary(data[k])
      ensures bad ==> !IsHeaderChar(data[j])
      ensures !bad ==> Ordinary(data[j]) || j == i + MAX_HEADER_SIZE
    {
      j, bad := i, false;
      var pe := i + Min(|data| - i, MAX_HEADER_SIZE);
      while j != pe
        invariant i <= j <= pe <= |data| && forall k | i <= k < j :: Ordinary(data[k])
      {
        if data[j] == CR || data[j] == LF {
          j := j - 1;
          return;
        }
        if !IsHeaderChar(data[j]) {
          bad := true;
          return;
        }
        j := j + 1;
      }
      if j == |data| {
        j := j - 1;
      }
    }

    /** One byte of a value, in the cases other than a line end and the bulk scan. */
    method ValueByte(data: string, q: nat, i: nat, mark: nat, ghost t: seq<Machine<L>>) returns (halt: Option<Halt>)
      requires Traces(push, data, t) && Scanned(push, data, t, q, i, f, sink, mark) && f.stage == HeaderValue
      requires i < |data| && data[i] != CR && data[i] != LF
      modifies this`f, this`errno
      ensures halt == None ==> Scanned(push, data, t, q, i + 1, f, sink, mark) && f.stage == HeaderValue && errno == old(errno)
      ensures halt != None ==> Stopped(data, t, halt)
    {
      halt := None;
      ScanValue(push, data, t, q, i, f, sink, mark);
      match ValueChar(ScanOf(f), data[i])
      case Ok(s) => f := WithScan(f, s);
      case Bad(h) => halt := StopWith(h, data, i, t);
    }

    method ValueGeneral(data: string, q: nat, i: nat, mark: nat, ghost t: seq<Machine<L>>)
      returns (j: nat, halt: Option<Halt>)
      requires Traces(push, data, t) && Scanned(push, data, t, q, i, f, sink, mark) && f.stage == HeaderValue
      requires i < |data| && Ordinary(data[i]) && f.headerState == General
      modifies this`errno
      ensures halt == None ==> i <= j < |data| && Scanned(push, data, t, q, j + 1, f, sink, mark) && errno == old(errno)
      ensures halt != None ==> Stopped(data, t, halt)
    {
      halt := None;
      var bad;
      j, bad := SkipValue(data, i);
      if bad {
        ScanGeneral(push, data, t, q, i, j, f, sink, mark);
        ScanValue(push, data, t, q, j, f, sink, mark);
        halt := Stop(INVALID_HEADER_TOKEN, data, j, t);
      } else {
        ScanSkip(push, data, t, q, i, j, f, sink, mark);
      }
    }

    /** Any byte but a line end: a value that the parser does not look at is passed in bulk. */
    method ValueBefore(data: string, q: nat, i: nat, mark: nat, ghost t: seq<Machine<L>>)
      returns (j: nat, halt: Option<Halt>)
      requires Traces(push, data, t) && Scanned(push, data, t, q, i, f, sink, mark) && f.stage == HeaderValue
      requires i < |data| && data[i] != CR && data[i] != LF
      modifies this`f, this`errno
      ensures halt == None ==>
                i <= j < |data| && Scanned(push, data, t, q, j + 1, f, sink, mark) && f.stage == HeaderValue && errno == old(errno)
      ensures halt != None ==> Stopped(data, t, halt)
    {
      j := i;
      if f.headerState == General && IsHeaderChar(data[i]) {
        j, halt := ValueGeneral(data, q, i, mark, t);
      } else {
        halt := ValueByte(data, q, i, mark, t);
      }
    }

    method ValueCr(data: string, q: nat, i: nat, mark: nat, ghost t: seq<Machine<L>>)
      returns (halt: Option<Halt>)
      requires Traces(push, data, t) && Scanned(push, data, t, q, i, f, sink, mark) && f.stage == HeaderValue
      requires i < |data| && data[i] == CR
      modifies this`f, this`errno, this`sink
      ensures halt == None ==> Before(data, t, i + 1, NO_MARKS) && errno == old(errno)
      ensures halt != None ==> Stopped(data, t, halt)
    {
      halt := None;
      ValueEnds(push, data, t, q, i, f, sink, mark);
      f := f.(stage := HeaderAlmostDone);
      Notify(Data(Value, data[mark..i]));
      var over := CountHeaderSize(i - q);
      if over {
        halt := Stop(HEADER_OVERFLOW, data, i, t);
      }
    }

    method ValueLf(data: string, q: nat, i: nat, mark: nat, ghost t: seq<Machine<L>>)
      returns (halt: Option<Halt>)
      requires Traces(push, data, t) && Scanned(push, data, t, q, i, f, sink, mark) && f.stage == HeaderValue
      requires i < |data| && data[i] == LF
      modifies this`f, this`errno, this`sink
      ensures halt == None ==> At(data, t, i, NO_MARKS) && f.stage == HeaderAlmostDone && errno == old(errno)
      ensures halt != None ==> Stopped(data, t, halt)
    {
      halt := None;
      ValueEnds(push, data, t, q, i, f, sink, mark);
      var over := CountHeaderSize(i - q);
      if over {
        halt := Stop(HEADER_OVERFLOW, data, i, t);
      } else {
        f := f.(stage := HeaderAlmostDone);
        Notify(Data(Value, data[mark..i]));
      }
    }

    /** A value is read to the end of the buffer, or to its line end, which is `again` looked at if it is
        a line feed. */
    ghost predicate ValueRead(data: string, t: seq<Machine<L>>, q: nat, i: nat, marks: Marks, again: bool, halt: Option<Halt>)
      reads this
    {
      if halt != None then Stopped(data, t, halt)
      else q <= i < |data| && if again then At(data, t, i, marks) && f.stage == HeaderAlmostDone else Before(data, t, i + 1, marks)
    }

    /** The case for a header's value. A line feed is looked at again. */
    method ValueBytes(data: string, q: nat, mark: nat, ghost t: seq<Machine<L>>)
      returns (i: nat, marks': Marks, again: bool, halt: Option<Halt>)
      requires Traces(push, data, t) && Scanned(push, data, t, q, q, f, sink, mark) && f.stage == HeaderValue
      modifies this`f, this`errno, this`sink
      ensures ValueRead(data, t, q, i, marks', again, halt) && (halt == None ==> errno == old(errno))
    {
      i, marks', again, halt := q, NO_MARKS, false, None;
      while i < |data|
        invariant Scanned(push, data, t, q, i, f, sink, mark) && f.stage == HeaderValue && errno == old(errno)
      {
        if data[i] == CR {
          halt := ValueCr(data, q, i, mark, t);
          return;
        }
        if data[i] == LF {
          again := true;
          halt := ValueLf(data, q, i, mark, t);
          return;
        }
        i, halt := ValueBefore(data, q, i, mark, t);
        if halt != None {
          return;
        }
        i := i + 1;
      }
      i := i - 1;
      marks' := NO_MARKS.Set(Value, mark);
      halt := CountScanned(data, q, i, mark, t);
    }

    /** The case for a body: everything that is there is read at once, and its last byte is looked at again. */
    ghost predicate BodyRead(data: string, t: seq<Machine<L>>, q: nat, i: nat, marks: Marks, again: bool)
      requires |t| == |data| + 1
      reads this
    {
      q <= i < |data| && if again then EndsMessage(data, t, i, marks) else Before(data, t, i + 1, marks)
    }

    method IdentityBytes(data: string, q: nat, marks: Marks, ghost t: seq<Machine<L>>)
      returns (i: nat, marks': Marks, again: bool)
      requires Traces(push, data, t) && Before(data, t, q, marks) && q < |data| && f.stage == BodyIdentity && ReadsBody(f)
      modifies this`f, this`sink
      ensures BodyRead(data, t, q, i, marks', again)
    {
      marks' := marks.Set(Body, q);
      var toRead := Min(f.contentLength, |data| - q);
      i := q + toRead - 1;
      again := f.contentLength == toRead;
      if again {
        marks' := BodyEnd(data, q, i, marks, t);
      } else {
        BodyGoesOn(push, data, t, q, f, sink, marks, marks'.body.value);
        f := f.(contentLength := f.contentLength - toRead);
      }
    }

    /** The whole body has been handed over, and the byte machine is one callback further. */
    ghost predicate EndsMessage(data: string, t: seq<Machine<L>>, i: nat, marks: Marks)
      reads this
    {
      && f.stage == MessageDone && marks == NO_MARKS && |t| == |data| + 1 && i < |data|
      && t[i + 1] == Running(f.(stage := StartReq), push(sink, MessageComplete))
    }

    method BodyEnd(data: string, q: nat, i: nat, marks: Marks, ghost t: seq<Machine<L>>) returns (marks': Marks)
      requires Traces(push, data, t) && Before(data, t, q, marks) && f.stage == BodyIdentity && ReadsBody(f)
      requires i == q + f.contentLength - 1 < |data|
      modifies this`f, this`sink
      ensures EndsMessage(data, t, i, marks')
    {
      marks' := marks.Set(Body, q);
      BodyIsRead(push, data, t, q, i, f, sink, marks, marks'.body.value);
      f := f.(contentLength := 0, stage := MessageDone);
      marks' := HandOver(Body, marks', data, i + 1);
    }

    /** The case for a chunk. */
    method ChunkBytes(data: string, q: nat, marks: Marks, ghost t: seq<Machine<L>>)
      returns (i: nat, marks': Marks)
      requires Traces(push, data, t) && Before(data, t, q, marks) && q < |data| && f.stage == ChunkData && ReadsBody(f)
      modifies this`f
      ensures q <= i < |data| && Before(data, t, i + 1, marks')
    {
      i, marks' := q, marks.Set(Body, q);
      var toRead := Min(f.contentLength, |data| - q);
      i := q + toRead - 1;
      if f.contentLength == toRead {
        BodyIsRead(push, data, t, q, i, f, sink, marks, marks'.body.value);
        f := f.(contentLength := 0, stage := ChunkDataAlmostDone);
      } else {
        BodyGoesOn(push, data, t, q, f, sink, marks, marks'.body.value);
        f := f.(contentLength := f.contentLength - toRead);
      }
    }

    /** An assertion of the source fails. */
    method Abort(data: string, ghost q: nat, ghost t: seq<Machine<L>>) returns (halt: Option<Halt>)
      requires Traces(push, data, t) && q < |data| && t[q].Running? && t[q].f == f
      requires (f.stage == BodyIdentity || f.stage == ChunkData) && !ReadsBody(f)
      ensures Stopped(data, t, halt)
    {
      assert Look(q) && t[q + 1] == StepByte(push, t[q], data[q]);
      StepAborts(push, t[q].f, t[q].log, data[q]);
      halt := Some(Aborted);
      StopsForGood(push, data, t, q + 1);
    }

    /** The switch for a state that looks at a single byte. */
    method PlainByte(data: string, q: nat, marks: Marks, ghost t: seq<Machine<L>>)
      returns (marks': Marks, again: bool, halt: Option<Halt>)
      requires Traces(push, data, t) && At(data, t, q, marks)
      modifies this`f, this`errno, this`sink
      ensures halt == None ==> errno == old(errno)
      ensures halt == None && !again ==> Before(data, t, q + 1, marks')
      ensures halt == None && again ==> At(data, t, q, marks') && Rank(f.stage) < old(Rank(f.stage))
      ensures halt != None ==> Stopped(data, t, halt)
    {
      again, halt := false, None;
      var a := Plain(f, data[q]);
      Interpret(push, f, a, sink, marks, data, q, t);
      marks' := Perform(a, data, q, marks);
      match a.next
      case Done =>
      case Again => again := true;
      case Leave(h) => halt := StopWith(h, data, q, t);
    }

    /** The mark and the callbacks of a case. */
    method Perform(a: Act, data: string, q: nat, marks: Marks) returns (marks': Marks)
      requires q <= |data| && Placed(marks, f.stage, q)
      modifies this`f, this`sink
      ensures f == a.f && (sink, marks') == Interpreted(push, old(sink), marks, a, data, q)
    {
      f := a.f;
      marks' := marks;
      if a.mark.Some? {
        marks' := marks'.Set(a.mark.value, q);
      }
      if a.flush.Some? {
        marks' := HandOver(a.flush.value, marks', data, q);
      }
      if a.note.Some? {
        Notify(a.note.value);
      }
    }

    /** Runs the switch on byte `i` until it is done with it. */
    method PlainBytes(data: string, i: nat, marks: Marks, ghost t: seq<Machine<L>>) returns (marks': Marks, halt: Option<Halt>)
      requires Traces(push, data, t) && At(data, t, i, marks)
      modifies this`f, this`errno, this`sink
      ensures halt == None ==> Before(data, t, i + 1, marks') && errno == old(errno)
      ensures halt != None ==> Stopped(data, t, halt)
      decreases Rank(f.stage)
    {
      var again;
      marks', again, halt := PlainByte(data, i, marks, t);
      if again && halt == None {
        marks', halt := PlainBytes(data, i, marks', t);
      }
    }

    /** One turn of the loop. Every state but four needs one byte. */
    method Turn(data: string, q: nat, marks: Marks, ghost t: seq<Machine<L>>)
      returns (i: nat, marks': Marks, halt: Option<Halt>)
      requires Traces(push, data, t) && Before(data, t, q, marks) && q < |data|
      modifies this`f, this`errno, this`sink
      ensures Turned(data, t, q, i, marks', halt) && (halt == None ==> errno == old(errno))
    {
      if InHeader(f.stage) {
        i, marks', halt := HeaderTurn(data, q, marks, t);
      } else if f.stage == BodyIdentity || f.stage == ChunkData {
        i, marks', halt := BodyBytes(data, q, marks, t);
      } else {
        i := q;
        StartsPlain(push, data, t, q, f, sink, marks);
        marks', halt := PlainBytes(data, q, marks, t);
      }
    }

    method HeaderTurn(data: string, q: nat, marks: Marks, ghost t: seq<Machine<L>>)
      returns (i: nat, marks': Marks, halt: Option<Halt>)
      requires Traces(push, data, t) && Before(data, t, q, marks) && q < |data| && InHeader(f.stage)
      modifies this`f, this`errno, this`sink
      ensures Turned(data, t, q, i, marks', halt) && (halt == None ==> errno == old(errno))
    {
      ghost var g := f;
      var over := CountHeaderSize(1);
      if over {
        i, marks' := q, marks;
        Overflows(push, data, t, q, g, sink, marks);
        halt := Stop(HEADER_OVERFLOW, data, q, t);
      } else {
        i, marks', halt := CountedByte(data, q, marks, t, g);
      }
    }

    method CountedByte(data: string, q: nat, marks: Marks, ghost t: seq<Machine<L>>, ghost g: Fields)
      returns (i: nat, marks': Marks, halt: Option<Halt>)
      requires Traces(push, data, t) && q < |data| && InHeader(g.stage) && Placed(marks, g.stage, q)
      requires t[q] == Running(g, WithPending(push, sink, marks, data, q))
      requires f == g.(nread := g.nread + 1) && f.nread <= MAX_HEADER_SIZE
      modifies this`f, this`errno, this`sink
      ensures Turned(data, t, q, i, marks', halt) && (halt == None ==> errno == old(errno))
    {
      if f.stage == HeaderField || f.stage == HeaderValue {
        StartsScan(push, data, t, q, g, sink, marks);
        i, marks', halt := HeaderBytes(data, q, marks, t);
      } else {
        i := q;
        StartsHeaderByte(push, data, t, q, g, sink, marks);
        marks', halt := PlainBytes(data, q, marks, t);
      }
    }

    method HeaderBytes(data: string, q: nat, marks: Marks, ghost t: seq<Machine<L>>)
      returns (i: nat, marks': Marks, halt: Option<Halt>)
      requires Traces(push, data, t) && (f.stage == HeaderField || f.stage == HeaderValue) && Placed(marks, f.stage, q)
      requires Scanned(push, data, t, q, q, f, sink, marks.Get(Live(f.stage).value).value)
      modifies this`f, this`errno, this`sink
      ensures Turned(data, t, q, i, marks', halt) && (halt == None ==> errno == old(errno))
    {
      if f.stage == HeaderField {
        i, marks', halt := FieldBytes(data, q, marks.field.value, t);
      } else {
        var again;
        i, marks', again, halt := ValueBytes(data, q, marks.value.value, t);
        if again && halt == None {
          marks', halt := PlainBytes(data, i, marks', t);
        }
      }
    }

    method BodyBytes(data: string, q: nat, marks: Marks, ghost t: seq<Machine<L>>)
      returns (i: nat, marks': Marks, halt: Option<Halt>)
      requires Traces(push, data, t) && Before(data, t, q, marks) && q < |data|
      requires f.stage == BodyIdentity || f.stage == ChunkData
      modifies this`f, this`errno, this`sink
      ensures Turned(data, t, q, i, marks', halt) && (halt == None ==> errno == old(errno))
    {
      i, marks', halt := q, marks, None;
      if !ReadsBody(f) {
        halt := Abort(data, q, t);
      } else if f.stage == ChunkData {
        i, marks' := ChunkBytes(data, q, marks, t);
      } else {
        i, marks', halt := WholeBody(data, q, marks, t);
      }
    }

    /** The last byte of the body is looked at again, to complete the message. */
    method MessageEnd(data: string, i: nat, marks: Marks, ghost t: seq<Machine<L>>) returns (marks': Marks, halt: Option<Halt>)
      requires Traces(push, data, t) && EndsMessage(data, t, i, marks)
      modifies this`f, this`errno, this`sink
      ensures halt == None ==> Before(data, t, i + 1, marks') && errno == old(errno)
      ensures halt != None ==> Stopped(data, t, halt)
    {
      MessageAt(data, i, marks, t);
      marks', halt := PlainBytes(data, i, marks, t);
    }

    lemma MessageAt(data: string, i: nat, marks: Marks, t: seq<Machine<L>>)
      requires EndsMessage(data, t, i, marks)
      ensures At(data, t, i, marks)
    {
      assert WithPending(push, sink, NO_MARKS, data, i) == sink;
      ExecMessageDone(push, f, WithPending(push, sink, NO_MARKS, data, i), data[i]);
    }

    method WholeBody(data: string, q: nat, marks: Marks, ghost t: seq<Machine<L>>)
      returns (i: nat, marks': Marks, halt: Option<Halt>)
      requires Traces(push, data, t) && Before(data, t, q, marks) && q < |data| && f.stage == BodyIdentity && ReadsBody(f)
      modifies this`f, this`errno, this`sink
      ensures Turned(data, t, q, i, marks', halt) && (halt == None ==> errno == old(errno))
    {
      halt := None;
      var again;
      i, marks', again := IdentityBytes(data, q, marks, t);
      if again {
        marks', halt := MessageEnd(data, i, marks', t);
      }
    }

    /** The parser is between two calls. */
    ghost predicate Valid()
      reads this
    {
      Joins(push) && Between(push, sink, f.stage)
    }

    /** `http_parser_execute`. If the byte machine gets through the whole buffer, then so does the call, and
        both have the same fields and have had the same effect on the callbacks' side. If the machine stops,
        then the call stops, too: it reports an error, or leaves for another protocol. */
    method Execute(data: string) returns (parsed: nat, halt: Option<Halt>)
      requires Valid()
      modifies this`f, this`errno, this`sink
      ensures old(errno).Some? ==> parsed == 0 && f == old(f) && errno == old(errno) && sink == old(sink)
      ensures old(errno).None? && data == "" ==>
                f == old(f) && sink == old(sink) && (errno == None <==> f.stage == Dead || f.stage == StartReq)
      ensures old(errno).None? && data != "" ==>
                match Run(push, Running(old(f), old(sink)), data)
                case Running(g, log) =>
                  halt == None && errno == None && parsed == |data| && f == g && sink == log && Valid()
                case Halted(_) => halt.Some? && (halt.value.Error? ==> errno == Some(halt.value.errno))
    {
      parsed, halt := 0, None;
      if errno.Some? {
        return;
      }
      if data == "" {
        if f.stage != Dead && f.stage != StartReq {
          errno, parsed := Some(INVALID_EOF_STATE), 1;
        }
        return;
      }
      ghost var t := TraceOf(push, Running(f, sink), data);
      var marks := StartMarks(f.stage);
      StartPending(push, f.stage, sink, data);
      marks, halt := Loop(data, marks, t);
      if halt == None {
        EndPending(push, f.stage, sink, marks, data);
        FlushAll(data, marks);
        parsed := |data|;
      }
    }

    /** The loop over the buffer. Afterwards at most one mark is set, as the source asserts. */
    method Loop(data: string, start: Marks, ghost t: seq<Machine<L>>) returns (marks: Marks, halt: Option<Halt>)
      requires Traces(push, data, t) && Before(data, t, 0, start) && errno == None
      modifies this`f, this`errno, this`sink
      ensures halt == None ==> Before(data, t, |data|, marks) && errno == None
      ensures halt != None ==> Stopped(data, t, halt)
    {
      marks, halt := start, None;
      var p := 0;
      while p < |data|
        invariant p <= |data| && Before(data, t, p, marks) && errno == None && halt == None
      {
        p, marks, halt := Turn(data, p, marks, t);
        if halt != None {
          return;
        }
        p := p + 1;
      }
    }

    /** The callbacks for the mark that is left over. */
    method FlushAll(data: string, marks: Marks)
      requires Placed(marks, f.stage, |data|)
      modifies this`sink
      ensures sink == WithPending(push, old(sink), marks, data, |data|)
    {
      var m := HandOver(Field, marks, data, |data|);
      m := HandOver(Value, m, data, |data|);
      m := HandOver(Url, m, data, |data|);
      m := HandOver(Body, m, data, |data|);
    }
  }

  /** A call that begins in the middle of some data marks it from its first byte. */
  function StartMarks(s: Stage): Marks {
    match Live(s)
    case Some(k) => NO_MARKS.Set(k, 0)
    case None => NO_MARKS
  }

  lemma StartPending<L(!new)>(push: Sink<L>, s: Stage, log: L, data: string)
    requires Between(push, log, s)
    ensures Placed(StartMarks(s), s, 0) && WithPending(push, log, StartMarks(s), data, 0) == log
  {
    assert data[0..0] == "";
    if Live(s).Some? {
      PendingOne(push, log, Live(s).value, 0, data, 0);
    }
  }

  lemma EndPending<L(!new)>(push: Sink<L>, s: Stage, log: L, marks: Marks, data: string)
    requires Joins(push) && Placed(marks, s, |data|)
    ensures Between(push, WithPending(push, log, marks, data, |data|), s)
  {
    if Live(s).Some? {
      var k := Live(s).value;
      PendingOne(push, log, k, marks.Get(k).value, data, |data|);
      PushedEnds(push, log, k, data[marks.Get(k).value..|data|]);
    }
  }

  lemma Overflows<L(!new)>(push: Sink<L>, data: string, t: seq<Machine<L>>, q: nat, f: Fields, log: L, marks: Marks)
    requires Traces(push, data, t) && q < |data| && InHeader(f.stage) && f.nread + 1 > MAX_HEADER_SIZE
    requires t[q] == Running(f, WithPending(push, log, marks, data, q))
    ensures t[q + 1].Halted?
  {
    assert Look(q);
  }

  lemma StartsScan<L(!new)>(push: Sink<L>, data: string, t: seq<Machine<L>>, q: nat, f: Fields, log: L, marks: Marks)
    requires Traces(push, data, t) && q < |data| && (f.stage == HeaderField || f.stage == HeaderValue)
    requires f.nread + 1 <= MAX_HEADER_SIZE && Placed(marks, f.stage, q)
    requires t[q] == Running(f, WithPending(push, log, marks, data, q))
    ensures Scanned(push, data, t, q, q, f.(nread := f.nread + 1), log, marks.Get(Live(f.stage).value).value)
  {
    PendingOne(push, log, Live(f.stage).value, marks.Get(Live(f.stage).value).value, data, q);
  }

  lemma StartsPlain<L(!new)>(push: Sink<L>, data: string, t: seq<Machine<L>>, q: nat, f: Fields, log: L, marks: Marks)
    requires Traces(push, data, t) && q < |data| && !Bulk(f.stage) && !InHeader(f.stage)
    requires t[q] == Running(f, WithPending(push, log, marks, data, q))
    ensures t[q + 1] == Exec(push, f, WithPending(push, log, marks, data, q), data[q])
  {
    assert Look(q);
  }

  lemma StartsHeaderByte<L(!new)>(push: Sink<L>, data: string, t: seq<Machine<L>>, q: nat, f: Fields, log: L, marks: Marks)
    requires Traces(push, data, t) && q < |data| && !Bulk(f.stage) && InHeader(f.stage) && f.nread + 1 <= MAX_HEADER_SIZE
    requires t[q] == Running(f, WithPending(push, log, marks, data, q))
    ensures t[q + 1] == Exec(push, f.(nread := f.nread + 1), WithPending(push, log, marks, data, q), data[q])
  {
    assert Look(q);
  }

  lemma ExecPlain<L(!new)>(push: Sink<L>, f: Fields, log: L, c: char)
    requires !Bulk(f.stage)
    ensures var a := Plain(f, c);
            match a.next
            case Again => Rank(a.f.stage) < Rank(f.stage) && Exec(push, f, log, c) == Exec(push, a.f, Noted(push, log, a), c)
            case Done => Exec(push, f, log, c) == Running(a.f, Taken(push, Noted(push, log, a), a.f.stage, c))
            case Leave(halt) => Exec(push, f, log, c) == Halted(halt)
  {
    if Plain(f, c).next == Again {
      AgainSinks(f, c);
    }
  }

  lemma Interpret<L(!new)>(push: Sink<L>, f: Fields, a: Act, log: L, marks: Marks, data: string, q: nat, t: seq<Machine<L>>)
    requires Joins(push) && q < |data| == |t| - 1 && !Bulk(f.stage) && a == Plain(f, data[q]) && Placed(marks, f.stage, q)
    requires t[q + 1] == Exec(push, f, WithPending(push, log, marks, data, q), data[q])
    ensures var (log', marks') := Interpreted(push, log, marks, a, data, q);
            match a.next
            case Done => Placed(marks', a.f.stage, q + 1) && t[q + 1] == Running(a.f, WithPending(push, log', marks', data, q + 1))
            case Again =>
              && Placed(marks', a.f.stage, q) && Rank(a.f.stage) < Rank(f.stage) && !Bulk(a.f.stage)
              && t[q + 1] == Exec(push, a.f, WithPending(push, log', marks', data, q), data[q])
            case Leave(halt) => t[q + 1] == Halted(halt)
  {
    PlainMarks(f, data[q]);
    ExecPlain(push, f, WithPending(push, log, marks, data, q), data[q]);
    if a.next == Done {
      PlainDone(push, f.stage, a, log, marks, data, q);
    } else if a.next == Again {
      PlainAgain(push, f.stage, a, log, marks, data, q);
    }
  }
}
