/** Where the query of a URL begins. `http_parser_execute` measures it from a mark that is a local variable,
    set at the URL's first byte and forgotten with the call, so that the URL that a handler sees can depend
    on how the network cuts the bytes. */
module HttpQuery {
  import opened Options
  import opened HttpMethods
  import opened HttpMachine
  import opened HttpParser
  import opened HttpRequests
  import opened HttpSafety

  // ---------------------------------------------------------------- the mark and the point

  /** `url_start_mark` after these bytes of a call: the offset of the URL's first byte, or null. */
  function Mark<L>(push: Sink<L>, m: Machine<L>, data: string): (r: Option<nat>)
    ensures r.Some? ==> r.value < |data|
  {
    if data == "" then None
    else
      var n := |data| - 1;
      var before := Run(push, m, data[..n]);
      if before.Running? && before.f.stage == ReqSpacesBeforeUrl && data[n] != ' ' then Some(n) else Mark(push, m, data[..n])
  }

  /** One byte of the buffer at address `base`: `qs_point` is cleared with a new message, and set at the
      question mark to its distance from the mark. A null mark stands for address 0. */
  function PointStep<L>(before: Machine<L>, after: Machine<L>, i: nat, mark: Option<nat>, base: nat, point: nat): (r: nat)
    requires mark.Some? ==> mark.value <= i
  {
    if !before.Running? || !after.Running? then point
    else if before.f.stage == StartReq && after.f.stage == ReqMethod then 0
    else if after.f.stage == ReqQueryStringStart then
      match mark
      case Some(start) => i - start
      case None => base + i
    else point
  }

  /** `qs_point` after these bytes of a call. */
  function PointAfter<L>(push: Sink<L>, m: Machine<L>, data: string, base: nat, point: nat): nat {
    if data == "" then point
    else
      var n := |data| - 1;
      PointStep(Run(push, m, data[..n]), Run(push, m, data), n, Mark(push, m, data), base,
                PointAfter(push, m, data[..n], base, point))
  }

  /** `qs_point` after some calls, with their buffers at these addresses. */
  function PointOf<L>(push: Sink<L>, m: Machine<L>, pieces: seq<string>, bases: seq<nat>, point: nat): nat
    requires |bases| == |pieces|
    decreases |pieces|
  {
    if pieces == [] then point
    else PointOf(push, Run(push, m, pieces[0]), pieces[1..], bases[1..], PointAfter(push, m, pieces[0], bases[0], point))
  }

  /** `url`, as `on_message_complete` takes it from `raw_url`. */
  function UrlSeen(rawUrl: string, point: nat): string {
    if point != 0 && point < |rawUrl| then rawUrl[..point] else rawUrl
  }

  // ---------------------------------------------------------------- question marks

  /** The place of the first question mark, or the length. */
  function Question(u: string): (k: nat)
    ensures k <= |u| && (k < |u| ==> u[k] == '?') && '?' !in u[..k] && (k == |u| <==> '?' !in u)
  {
    if u == "" then 0
    else
      var init, k := u[..|u| - 1], Question(u[..|u| - 1]);
      assert u == init + [u[|u| - 1]] && u[..k] == init[..k];
      if k < |init| then k else if u[|u| - 1] == '?' then |init| else |u|
  }

  function WithoutQuery(u: string): string {
    u[..Question(u)]
  }

  // ---------------------------------------------------------------- one byte of a URL

  predicate UrlByteOk(c: char) {
    c != ' ' && c != CR && c != LF
  }

  predicate InUrl(s: Stage) {
    Live(s) == Some(Url)
  }

  predicate InQuery(s: Stage) {
    s == ReqQueryStringStart || s == ReqQueryString
  }

  lemma UrlGoesOn(s: Stage, c: char)
    requires InUrl(s) && UrlByteOk(c) && ParseUrlChar(s, c) != Dead
    ensures var s' := ParseUrlChar(s, c);
            InUrl(s') && (InQuery(s') <==> InQuery(s) || c == '?') && (s' == ReqQueryStringStart <==> !InQuery(s) && c == '?')
  {
  }

  lemma UrlBegins(s: Stage, c: char)
    requires (s == ReqSpacesBeforeUrl || s == ReqServerStart) && UrlByteOk(c) && ParseUrlChar(s, c) != Dead
    ensures var s' := ParseUrlChar(s, c); InUrl(s') && (InQuery(s') <==> c == '?') && (s' == ReqQueryStringStart <==> c == '?')
  {
  }

  /** What a byte of a URL does to the state. */
  ghost predicate UrlStepped<L>(s: Stage, c: char, m: Machine<L>) {
    m.Running? ==>
      && InUrl(m.f.stage) && (InQuery(m.f.stage) <==> InQuery(s) || c == '?')
      && (m.f.stage == ReqQueryStringStart <==> !InQuery(s) && c == '?')
  }

  lemma ByteInUrl<L(!new)>(push: Sink<L>, f: Fields, log: L, c: char)
    requires (InUrl(f.stage) || f.stage == ReqSpacesBeforeUrl) && UrlByteOk(c)
    ensures UrlStepped(f.stage, c, StepByte(push, Running(f, log), c))
  {
    var g := f.(nread := f.nread + 1);
    if g.nread <= MAX_HEADER_SIZE {
      CountedStep(push, f, g, log, c);
      if f.stage == ReqSpacesBeforeUrl {
        FirstInUrl(push, g, log, c);
      } else {
        NextInUrl(push, g, log, c);
      }
    } else {
      OverflowStep(push, f, log, c);
    }
  }

  lemma FirstInUrl<L(!new)>(push: Sink<L>, f: Fields, log: L, c: char)
    requires f.stage == ReqSpacesBeforeUrl && UrlByteOk(c)
    ensures UrlStepped(f.stage, c, Exec(push, f, log, c))
  {
    var s := ParseUrlChar(if f.method_ == CONNECT then ReqServerStart else f.stage, c);
    if s != Dead {
      UrlBegins(if f.method_ == CONNECT then ReqServerStart else f.stage, c);
    }
    assert Plain(f, c) == FirstUrlByte(f, c);
  }

  lemma NextInUrl<L(!new)>(push: Sink<L>, f: Fields, log: L, c: char)
    requires InUrl(f.stage) && UrlByteOk(c)
    ensures UrlStepped(f.stage, c, Exec(push, f, log, c))
  {
    if ParseUrlChar(f.stage, c) != Dead {
      UrlGoesOn(f.stage, c);
    }
    assert Plain(f, c) == UrlByte(f, c);
  }

  // ---------------------------------------------------------------- a new message

  /** Between a message's first byte and its URL. */
  predicate BeforeUrl(s: Stage) {
    s == ReqMethod || s == ReqSpacesBeforeUrl
  }

  predicate Past(s: Stage) {
    !BeforeUrl(s) && !InUrl(s)
  }

  lemma HeadersPast(f: Fields, c: char)
    requires InHeaders(f.stage)
    ensures Past(Headers(f, c).f.stage) && (Headers(f, c).next == Again ==> InHeaders(Headers(f, c).f.stage))
  {
    assert f.stage == HeaderValueStart || f.stage == HeaderValueDiscardWs ==>
        Headers(f, c).f.stage == HeaderValue || Headers(f, c).f.stage == f.stage
        || Headers(f, c).f.stage == HeaderValueDiscardWsAlmostDone || Headers(f, c).f.stage == HeaderValueDiscardLws;
  }

  lemma ChunksPast(f: Fields, c: char)
    requires InChunks(f.stage)
    ensures Past(Chunks(f, c).f.stage)
  {
  }

  lemma LinePast(f: Fields, c: char)
    requires !Bulk(f.stage) && !InHeaders(f.stage) && !InChunks(f.stage) && Past(f.stage) && f.stage != StartReq
    ensures Past(RequestLine(f, c).f.stage)
  {
  }

  lemma PlainPast(f: Fields, c: char)
    requires !Bulk(f.stage) && Past(f.stage) && f.stage != StartReq
    ensures Past(Plain(f, c).f.stage)
  {
    if InHeaders(f.stage) {
      HeadersPast(f, c);
    } else if InChunks(f.stage) {
      ChunksPast(f, c);
    } else {
      LinePast(f, c);
    }
  }

  ghost predicate MachinePast<L>(m: Machine<L>) {
    m.Running? ==> Past(m.f.stage)
  }

  lemma {:induction false} ExecPast<L(!new)>(push: Sink<L>, f: Fields, log: L, c: char)
    requires Past(f.stage) && f.stage != StartReq && f.stage != BodyIdentity && f.stage != ChunkData
    ensures MachinePast(Exec(push, f, log, c))
    decreases Rank(f.stage)
  {
    if f.stage == HeaderValue && c == LF {
      ExecPast(push, f.(stage := HeaderAlmostDone), log, c);
    } else if Bulk(f.stage) {
      NamePast(push, f, log, c);
    } else {
      PlainPast(f, c);
      ExecPlain(push, f, log, c);
      if Plain(f, c).next == Again {
        AgainSinks(f, c);
        HeadersPast(f, c);
        ExecPast(push, Plain(f, c).f, Noted(push, log, Plain(f, c)), c);
      }
    }
  }

  lemma NamePast<L(!new)>(push: Sink<L>, f: Fields, log: L, c: char)
    requires f.stage == HeaderField || (f.stage == HeaderValue && c != LF)
    ensures MachinePast(Exec(push, f, log, c))
  {
  }

  lemma BodyPast<L(!new)>(push: Sink<L>, f: Fields, log: L, c: char)
    requires f.stage == BodyIdentity || f.stage == ChunkData
    ensures MachinePast(StepByte(push, Running(f, log), c))
  {
    if !ReadsBody(f) {
      StepAborts(push, f, log, c);
    } else if f.contentLength > 1 {
      StepBody(push, f, log, c);
    } else if f.stage == BodyIdentity {
      StepLastBodyByte(push, f, log, c);
    } else {
      StepLastChunkByte(push, f, log, c);
    }
  }

  lemma BytePast<L(!new)>(push: Sink<L>, f: Fields, log: L, c: char)
    requires Past(f.stage) && f.stage != StartReq
    ensures MachinePast(StepByte(push, Running(f, log), c))
  {
    if f.stage == BodyIdentity || f.stage == ChunkData {
      BodyPast(push, f, log, c);
    } else if !InHeader(f.stage) {
      ExecPast(push, f, log, c);
    } else if f.nread < MAX_HEADER_SIZE {
      CountedStep(push, f, f.(nread := f.nread + 1), log, c);
      ExecPast(push, f.(nread := f.nread + 1), log, c);
    } else {
      OverflowStep(push, f, log, c);
    }
  }

  /** From the first byte of a message to its URL, `qs_point` is clear. */
  ghost predicate Cleared<L>(m: Machine<L>, point: nat) {
    m.Running? && BeforeUrl(m.f.stage) ==> point == 0
  }

  lemma StepCleared<L(!new)>(push: Sink<L>, m: Machine<L>, c: char, i: nat, mark: Option<nat>, base: nat, point: nat)
    requires Cleared(m, point) && (mark.Some? ==> mark.value <= i)
    ensures Cleared(StepByte(push, m, c), PointStep(m, StepByte(push, m, c), i, mark, base, point))
  {
    if m.Running? && !BeforeUrl(m.f.stage) {
      if m.f.stage == StartReq {
        FirstByte(push, m.f, m.log, c);
      } else if InUrl(m.f.stage) {
        UrlLeaves(push, m.f, m.log, c);
      } else {
        BytePast(push, m.f, m.log, c);
      }
    } else if m.Running? {
      MethodLeaves(push, m.f, m.log, c);
    }
  }

  lemma UrlLeaves<L(!new)>(push: Sink<L>, f: Fields, log: L, c: char)
    requires InUrl(f.stage)
    ensures var m := StepByte(push, Running(f, log), c);
            m.Running? ==> !BeforeUrl(m.f.stage) && m.f.stage != StartReq && (!UrlByteOk(c) ==> Past(m.f.stage))
  {
    if f.nread < MAX_HEADER_SIZE {
      CountedStep(push, f, f.(nread := f.nread + 1), log, c);
      UrlLeft(push, f.(nread := f.nread + 1), log, c);
    } else {
      OverflowStep(push, f, log, c);
    }
  }

  lemma UrlLeft<L(!new)>(push: Sink<L>, f: Fields, log: L, c: char)
    requires InUrl(f.stage)
    ensures var m := Exec(push, f, log, c);
            m.Running? ==> !BeforeUrl(m.f.stage) && m.f.stage != StartReq && (!UrlByteOk(c) ==> Past(m.f.stage))
  {
    if ParseUrlChar(f.stage, c) != Dead {
      UrlCharStays(f.stage, c);
    }
    assert Plain(f, c) == UrlByte(f, c);
    ExecPlain(push, f, log, c);
  }

  lemma UrlCharStays(s: Stage, c: char)
    requires InUrl(s) && ParseUrlChar(s, c) != Dead
    ensures UrlByteOk(c)
    ensures InUrl(ParseUrlChar(s, c))
  {
  }

  /** The point stays clear in front of the URL. */
  lemma MethodLeaves<L(!new)>(push: Sink<L>, f: Fields, log: L, c: char)
    requires BeforeUrl(f.stage)
    ensures var m := StepByte(push, Running(f, log), c);
            m.Running? && BeforeUrl(m.f.stage) ==> m.f.stage != ReqQueryStringStart
  {
  }

  lemma FirstByte<L(!new)>(push: Sink<L>, f: Fields, log: L, c: char)
    requires f.stage == StartReq
    ensures var m := StepByte(push, Running(f, log), c); m.Running? ==> m.f.stage == StartReq || m.f.stage == ReqMethod
  {
  }

  lemma {:induction false} CallCleared<L(!new)>(push: Sink<L>, m: Machine<L>, data: string, base: nat, point: nat)
    requires Cleared(m, point)
    ensures Cleared(Run(push, m, data), PointAfter(push, m, data, base, point))
    decreases |data|
  {
    if data != "" {
      var n := |data| - 1;
      CallCleared(push, m, data[..n], base, point);
      StepCleared(push, Run(push, m, data[..n]), data[n], n, Mark(push, m, data), base, PointAfter(push, m, data[..n], base, point));
    }
  }

  lemma {:induction false} CallsCleared<L(!new)>(push: Sink<L>, m: Machine<L>, pieces: seq<string>, bases: seq<nat>, point: nat)
    requires |bases| == |pieces| && Cleared(m, point)
    ensures Cleared(Run(push, m, Flat(pieces)), PointOf(push, m, pieces, bases, point))
    decreases |pieces|
  {
    if pieces != [] {
      RunSplit(push, m, pieces[0], Flat(pieces[1..]));
      CallCleared(push, m, pieces[0], bases[0], point);
      CallsCleared(push, Run(push, m, pieces[0]), pieces[1..], bases[1..], PointAfter(push, m, pieces[0], bases[0], point));
    }
  }

  // ---------------------------------------------------------------- a URL in one call or in several

  ghost predicate UrlText(u: string) {
    forall i {:trigger Look(i)} | 0 <= i < |u| :: Look(i) ==> UrlByteOk(u[i])
  }

  lemma UrlTextSplit(a: string, b: string)
    requires UrlText(a + b)
    ensures UrlText(a) && UrlText(b)
    ensures b != "" ==> UrlByteOk(b[|b| - 1])
  {
    forall i | 0 <= i < |a| ensures UrlByteOk(a[i]) {
      assert Look(i) && (a + b)[i] == a[i];
    }
    forall i | 0 <= i < |b| ensures UrlByteOk(b[i]) {
      assert Look(|a| + i) && (a + b)[|a| + i] == b[i];
    }
  }

  /** The buffers lie at addresses that are larger than the URL is long. */
  ghost predicate Far(bases: seq<nat>, least: nat) {
    forall i {:trigger Look(i)} | 0 <= i < |bases| :: Look(i) ==> bases[i] >= least
  }

  lemma FarRest(bases: seq<nat>, least: nat)
    requires Far(bases, least) && bases != []
    ensures bases[0] >= least && Far(bases[1..], least)
  {
    assert Look(0);
    forall i | 0 <= i < |bases| - 1 ensures bases[1..][i] >= least {
      assert Look(i + 1);
    }
  }

  lemma HaltsBefore<L(!new)>(push: Sink<L>, m: Machine<L>, a: string, b: string)
    requires Run(push, m, a + b).Running?
    ensures Run(push, m, a).Running? && Run(push, m, a + b) == Run(push, Run(push, m, a), b)
  {
    RunSplit(push, m, a, b);
    if Run(push, m, a).Halted? {
      HaltedStays(push, Run(push, m, a), b);
    }
  }

  /** The parser accepts these bytes. */
  ghost predicate Accepts<L>(push: Sink<L>, m: Machine<L>, text: string) {
    forall k {:trigger Look(k)} :: Look(k) ==> Run(push, m, text).Running?
  }

  lemma AcceptsBefore<L(!new)>(push: Sink<L>, m: Machine<L>, a: string, b: string)
    requires Accepts(push, m, a + b)
    ensures Accepts(push, m, a)
  {
    assert Look(0);
    HaltsBefore(push, m, a, b);
  }

  /** After these bytes the URL begins. */
  ghost predicate AtUrl<L>(push: Sink<L>, m: Machine<L>, pre: string) {
    forall k {:trigger Look(k)} :: Look(k) ==> Run(push, m, pre).Running? && Run(push, m, pre).f.stage == ReqSpacesBeforeUrl
  }

  /** The call in which the URL begins, after `pre`. */
  ghost predicate UrlBegun<L>(push: Sink<L>, m: Machine<L>, pre: string, a: string, base: nat, point: nat) {
    forall k {:trigger Look(k)} :: Look(k) ==>
      var after := Run(push, m, pre + a);
      && after.Running? && InUrl(after.f.stage) && Mark(push, m, pre + a) == Some(|pre|) && (InQuery(after.f.stage) <==> '?' in a)
      && PointAfter(push, m, pre + a, base, point) == if '?' in a then Question(a) else PointAfter(push, m, pre, base, point)
  }

  lemma {:induction false} FirstCall<L(!new)>(push: Sink<L>, m: Machine<L>, pre: string, a: string, base: nat, point: nat)
    requires AtUrl(push, m, pre) && a != "" && UrlText(a) && Accepts(push, m, pre + a)
    ensures UrlBegun(push, m, pre, a, base, point)
    decreases |a|
  {
    var init, c := a[..|a| - 1], a[|a| - 1];
    assert a == init + [c] && pre + a == pre + init + [c];
    UrlTextSplit(init, [c]);
    AcceptsBefore(push, m, pre + init, [c]);
    if init == "" {
      assert pre + init == pre;
      FirstOfUrl(push, m, pre, c, base, point);
    } else {
      FirstCall(push, m, pre, init, base, point);
      BegunMore(push, m, pre, init, c, base, point);
    }
  }

  /** One byte more. */
  lemma PointMore<L(!new)>(push: Sink<L>, m: Machine<L>, init: string, c: char, base: nat, point: nat)
    returns (before: Machine<L>, after: Machine<L>, mark: Option<nat>)
    ensures before == Run(push, m, init) && after == StepByte(push, before, c) == Run(push, m, init + [c])
    ensures mark == Mark(push, m, init + [c])
            == if before.Running? && before.f.stage == ReqSpacesBeforeUrl && c != ' ' then Some(|init|) else Mark(push, m, init)
    ensures PointAfter(push, m, init + [c], base, point)
            == PointStep(before, after, |init|, mark, base, PointAfter(push, m, init, base, point))
  {
    before, after, mark := Run(push, m, init), Run(push, m, init + [c]), Mark(push, m, init + [c]);
    assert (init + [c])[..|init|] == init;
  }

  lemma PointInUrl<L(!new)>(before: Machine<L>, after: Machine<L>, c: char, i: nat, mark: Option<nat>, base: nat, point: nat)
    requires before.Running? && after.Running? && before.f.stage != StartReq && UrlStepped(before.f.stage, c, after)
    requires mark.Some? ==> mark.value <= i
    ensures PointStep(before, after, i, mark, base, point)
            == if InQuery(before.f.stage) || c != '?' then point else match mark case Some(start) => i - start case None => base + i
  {
  }

  lemma FirstOfUrl<L(!new)>(push: Sink<L>, m: Machine<L>, pre: string, c: char, base: nat, point: nat)
    requires AtUrl(push, m, pre) && UrlByteOk(c) && Accepts(push, m, pre + [c])
    ensures UrlBegun(push, m, pre, [c], base, point)
  {
    assert Look(0);
    var before, after, mark := PointMore(push, m, pre, c, base, point);
    ByteInUrl(push, before.f, before.log, c);
    PointInUrl(before, after, c, |pre|, mark, base, PointAfter(push, m, pre, base, point));
    assert Question([c]) == if c == '?' then 0 else 1;
  }

  lemma QuestionLast(u: string, c: char)
    ensures Question(u + [c]) == if '?' in u then Question(u) else if c == '?' then |u| else |u| + 1
  {
    assert (u + [c])[..|u|] == u;
  }

  lemma BegunMore<L(!new)>(push: Sink<L>, m: Machine<L>, pre: string, a: string, c: char, base: nat, point: nat)
    requires UrlBegun(push, m, pre, a, base, point) && UrlByteOk(c) && Accepts(push, m, pre + a + [c])
    ensures UrlBegun(push, m, pre, a + [c], base, point)
  {
    assert Look(0) && pre + (a + [c]) == pre + a + [c];
    var before, after, mark := PointMore(push, m, pre + a, c, base, point);
    ByteInUrl(push, before.f, before.log, c);
    PointInUrl(before, after, c, |pre + a|, mark, base, PointAfter(push, m, pre + a, base, point));
    QuestionLast(a, c);
  }

  /** A call that begins inside the URL. */
  ghost predicate UrlContinued<L>(push: Sink<L>, m: Machine<L>, a: string, base: nat, point: nat)
    requires m.Running?
  {
    forall k {:trigger Look(k)} :: Look(k) ==>
      var after := Run(push, m, a);
      && after.Running? && InUrl(after.f.stage) && Mark(push, m, a) == None
      && (InQuery(after.f.stage) <==> InQuery(m.f.stage) || '?' in a)
      && PointAfter(push, m, a, base, point) == if '?' in a && !InQuery(m.f.stage) then base + Question(a) else point
  }

  lemma {:induction false} LaterCall<L(!new)>(push: Sink<L>, m: Machine<L>, a: string, base: nat, point: nat)
    requires m.Running? && InUrl(m.f.stage) && UrlText(a) && Run(push, m, a).Running?
    ensures UrlContinued(push, m, a, base, point)
    decreases |a|
  {
    if a != "" {
      var init, c := a[..|a| - 1], a[|a| - 1];
      assert a == init + [c];
      UrlTextSplit(init, [c]);
      HaltsBefore(push, m, init, [c]);
      LaterCall(push, m, init, base, point);
      ContinuedMore(push, m, init, c, base, point);
    }
  }

  lemma ContinuedMore<L(!new)>(push: Sink<L>, m: Machine<L>, a: string, c: char, base: nat, point: nat)
    requires m.Running? && UrlContinued(push, m, a, base, point) && UrlByteOk(c) && Run(push, m, a + [c]).Running?
    ensures UrlContinued(push, m, a + [c], base, point)
  {
    assert Look(0);
    var before, after, mark := PointMore(push, m, a, c, base, point);
    ByteInUrl(push, before.f, before.log, c);
    PointInUrl(before, after, c, |a|, mark, base, PointAfter(push, m, a, base, point));
    QuestionLast(a, c);
  }

  /** A question mark that is read in a later call sets the point to an address. */
  ghost predicate Found(s: Stage, u: string, point: nat, after: nat, least: nat) {
    if '?' in u && !InQuery(s) then after >= least else after == point
  }

  lemma {:induction false} LaterCalls<L(!new)>(push: Sink<L>, m: Machine<L>, pieces: seq<string>, bases: seq<nat>, point: nat, least: nat)
    requires m.Running? && InUrl(m.f.stage) && UrlText(Flat(pieces)) && Run(push, m, Flat(pieces)).Running?
    requires |bases| == |pieces| && Far(bases, least)
    ensures Found(m.f.stage, Flat(pieces), point, PointOf(push, m, pieces, bases, point), least)
    decreases |pieces|
  {
    if pieces != [] {
      var a, next := pieces[0], PointAfter(push, m, pieces[0], bases[0], point);
      FarRest(bases, least);
      var after := NextCall(push, m, a, Flat(pieces[1..]), bases[0], point, least);
      LaterCalls(push, after, pieces[1..], bases[1..], next, least);
    }
  }

  lemma NextCall<L(!new)>(push: Sink<L>, m: Machine<L>, a: string, rest: string, base: nat, point: nat, least: nat)
    returns (after: Machine<L>)
    requires m.Running? && InUrl(m.f.stage) && UrlText(a + rest) && Run(push, m, a + rest).Running? && base >= least
    ensures after == Run(push, m, a) && after.Running? && InUrl(after.f.stage) && UrlText(rest) && Run(push, after, rest).Running?
    ensures Found(m.f.stage, a, point, PointAfter(push, m, a, base, point), least)
    ensures InQuery(after.f.stage) <==> InQuery(m.f.stage) || '?' in a
  {
    after := Run(push, m, a);
    UrlTextSplit(a, rest);
    HaltsBefore(push, m, a, rest);
    LaterCall(push, m, a, base, point);
    assert Look(0);
  }

  lemma {:induction false} PointOfSplit<L(!new)>(push: Sink<L>, m: Machine<L>, a: seq<string>, b: seq<string>, p: seq<nat>, q: seq<nat>, point: nat)
    requires |a| == |p| && |b| == |q|
    ensures PointOf(push, m, a + b, p + q, point) == PointOf(push, Run(push, m, Flat(a)), b, q, PointOf(push, m, a, p, point))
    decreases |a|
  {
    if a == [] {
      assert a + b == b && p + q == q;
    } else {
      assert (a + b)[1..] == a[1..] + b && (p + q)[1..] == p[1..] + q;
      RunSplit(push, m, a[0], Flat(a[1..]));
      PointOfSplit(push, Run(push, m, a[0]), a[1..], b, p[1..], q, PointAfter(push, m, a[0], p[0], point));
    }
  }

  lemma {:induction false} QuestionSplit(a: string, b: string)
    ensures '?' in a ==> Question(a + b) == Question(a)
    ensures '?' !in a ==> Question(a + b) >= |a|
    decreases |b|
  {
    if b == "" {
      assert a + b == a;
    } else {
      QuestionSplit(a, b[..|b| - 1]);
      assert (a + b)[..|a + b| - 1] == a + b[..|b| - 1];
    }
  }

  // ---------------------------------------------------------------- what the handler sees

  /** The calls of a connection: earlier ones, the one in which a URL begins, and more of them. */
  ghost predicate UrlIn<L>(push: Sink<L>, m: Machine<L>, done: seq<string>, pre: string, first: string, rest: seq<string>) {
    && AtUrl(push, m, Flat(done) + pre) && first != "" && UrlText(first + Flat(rest))
    && Accepts(push, m, Flat(done) + pre + (first + Flat(rest)))
  }

  lemma PointSeen<L(!new)>(push: Sink<L>, m: Machine<L>, pre: string, first: string, rest: seq<string>, bases: seq<nat>, point: nat, least: nat)
    requires UrlIn(push, m, [], pre, first, rest) && Cleared(m, point)
    requires |bases| == |rest| + 1 && Far(bases, least)
    ensures var u, after := first + Flat(rest), PointOf(push, m, [pre + first] + rest, bases, point);
            if '?' in first then after == Question(u) else if '?' in u then after >= least else after == 0
  {
    assert Flat([]) + pre == pre && Flat([]) + pre + (first + Flat(rest)) == pre + first + Flat(rest);
    UrlTextSplit(first, Flat(rest));
    AcceptsBefore(push, m, pre + first, Flat(rest));
    FirstCall(push, m, pre, first, bases[0], point);
    CallCleared(push, m, pre, bases[0], point);
    assert Look(0);
    HaltsBefore(push, m, pre + first, Flat(rest));
    QuestionSplit(first, Flat(rest));
    assert ([pre + first] + rest)[1..] == rest;
    FarRest(bases, least);
    LaterCalls(push, Run(push, m, pre + first), rest, bases[1..], PointAfter(push, m, pre + first, bases[0], point), least);
  }

  /** The URL that the handler sees is without its query exactly when the question mark, if there is one, was
      read in the same call as the URL's first byte, and is not that byte itself. */
  lemma UrlExactly<L(!new)>(push: Sink<L>, m: Machine<L>, done: seq<string>, pre: string, first: string, rest: seq<string>,
                      bases: seq<nat>, point: nat)
    requires Cleared(m, point) && UrlIn(push, m, done, pre, first, rest)
    requires |bases| == |done| + 1 + |rest| && Far(bases, |first + Flat(rest)|)
    ensures var u := first + Flat(rest);
            var seen := UrlSeen(u, PointOf(push, m, done + ([pre + first] + rest), bases, point));
            && seen == (if 0 < Question(u) < |first| then WithoutQuery(u) else u)
            && (seen == WithoutQuery(u) <==> '?' !in u || 0 < Question(u) < |first|)
  {
    var after := PointAtLast(push, m, done, pre, first, rest, bases, point);
    SeenAt(first, Flat(rest), after);
  }

  lemma PointAtLast<L(!new)>(push: Sink<L>, m: Machine<L>, done: seq<string>, pre: string, first: string, rest: seq<string>,
                             bases: seq<nat>, point: nat) returns (after: nat)
    requires Cleared(m, point) && UrlIn(push, m, done, pre, first, rest)
    requires |bases| == |done| + 1 + |rest| && Far(bases, |first + Flat(rest)|)
    ensures after == PointOf(push, m, done + ([pre + first] + rest), bases, point)
    ensures PointPlaced(first, Flat(rest), after)
  {
    var calls, p, q := [pre + first] + rest, bases[..|done|], bases[|done|..];
    assert bases == p + q;
    FarEnd(bases, |done|, |first + Flat(rest)|);
    PointOfSplit(push, m, done, calls, p, q, point);
    CallsCleared(push, m, done, p, point);
    AfterCalls(push, m, done, pre, first, rest);
    PointSeen(push, Run(push, m, Flat(done)), pre, first, rest, q, PointOf(push, m, done, p, point), |first + Flat(rest)|);
    after := PointOf(push, m, done + calls, bases, point);
  }

  /** Where the point is when the URL `first + more` has been read. */
  ghost predicate PointPlaced(first: string, more: string, point: nat) {
    var u := first + more;
    if '?' in first then point == Question(u) else if '?' in u then point >= |u| else point == 0
  }

  lemma AfterCalls<L(!new)>(push: Sink<L>, m: Machine<L>, done: seq<string>, pre: string, first: string, rest: seq<string>)
    requires UrlIn(push, m, done, pre, first, rest)
    ensures UrlIn(push, Run(push, m, Flat(done)), [], pre, first, rest)
  {
    var u := first + Flat(rest);
    assert Flat(done) + pre + u == Flat(done) + (pre + u) && Flat([]) + pre == pre && Flat([]) + pre + u == pre + u;
    AtUrlAfter(push, m, Flat(done), pre);
    AcceptsAfter(push, m, Flat(done), pre + u);
  }

  lemma AtUrlAfter<L(!new)>(push: Sink<L>, m: Machine<L>, a: string, b: string)
    requires AtUrl(push, m, a + b)
    ensures AtUrl(push, Run(push, m, a), b)
  {
    assert Look(0);
    RunSplit(push, m, a, b);
  }

  lemma AcceptsAfter<L(!new)>(push: Sink<L>, m: Machine<L>, a: string, b: string)
    requires Accepts(push, m, a + b)
    ensures Accepts(push, Run(push, m, a), b)
  {
    assert Look(0);
    RunSplit(push, m, a, b);
  }

  lemma SeenAt(first: string, more: string, point: nat)
    requires PointPlaced(first, more, point)
    ensures var u, seen := first + more, UrlSeen(first + more, point);
            && seen == (if 0 < Question(u) < |first| then WithoutQuery(u) else u)
            && (seen == WithoutQuery(u) <==> '?' !in u || 0 < Question(u) < |first|)
  {
    QuestionSplit(first, more);
  }

  lemma FarEnd(bases: seq<nat>, k: nat, least: nat)
    requires Far(bases, least) && k <= |bases|
    ensures Far(bases[k..], least)
  {
    forall i | 0 <= i < |bases| - k ensures bases[k..][i] >= least {
      assert Look(k + i);
    }
  }

  /** After the URL, nothing moves the point before the next message. */
  lemma {:induction false} PointStays<L(!new)>(push: Sink<L>, m: Machine<L>, a: string, t: string, base: nat, point: nat)
    requires t != "" && Leaves(push, m, a, t[0]) && Unfinished(push, m, a, t)
    ensures PointAfter(push, m, a + t, base, point) == PointAfter(push, m, a, base, point) && MachinePast(Run(push, m, a + t))
    decreases |t|
  {
    var init, c := t[..|t| - 1], t[|t| - 1];
    assert a + t == a + init + [c];
    if init == "" {
      assert a + init == a;
    } else {
      UnfinishedBefore(push, m, a, t);
      PointStays(push, m, a, init, base, point);
      StillPast(push, m, a, t);
    }
    PointStaysOnce(push, m, a + init, c, base, point);
  }

  /** The message is not complete before the last byte of `t`. */
  ghost predicate Unfinished<L>(push: Sink<L>, m: Machine<L>, a: string, t: string) {
    forall k {:trigger Look(k)} | 0 < k < |t| ::
      Look(k) ==> Run(push, m, a + t[..k]).Running? ==> Run(push, m, a + t[..k]).f.stage != StartReq
  }

  lemma UnfinishedBefore<L(!new)>(push: Sink<L>, m: Machine<L>, a: string, t: string)
    requires t != "" && Unfinished(push, m, a, t)
    ensures Unfinished(push, m, a, t[..|t| - 1])
  {
    var init := t[..|t| - 1];
    forall k | 0 < k < |init| ensures Run(push, m, a + init[..k]).Running? ==> Run(push, m, a + init[..k]).f.stage != StartReq {
      assert Look(k) && init[..k] == t[..k];
    }
  }

  /** After these bytes the parser is past the URL, or this byte ends it. */
  ghost predicate Leaves<L>(push: Sink<L>, m: Machine<L>, a: string, c: char) {
    forall k {:trigger Look(k)} :: Look(k) ==>
      var before := Run(push, m, a);
      before.Running? ==> if InUrl(before.f.stage) then !UrlByteOk(c) else Past(before.f.stage) && before.f.stage != StartReq
  }

  lemma StillPast<L(!new)>(push: Sink<L>, m: Machine<L>, a: string, t: string)
    requires |t| > 1 && Unfinished(push, m, a, t) && MachinePast(Run(push, m, a + t[..|t| - 1]))
    ensures Leaves(push, m, a + t[..|t| - 1], t[|t| - 1])
  {
    assert Look(|t| - 1);
  }

  lemma PointStaysOnce<L(!new)>(push: Sink<L>, m: Machine<L>, a: string, c: char, base: nat, point: nat)
    requires Leaves(push, m, a, c)
    ensures PointAfter(push, m, a + [c], base, point) == PointAfter(push, m, a, base, point) && MachinePast(Run(push, m, a + [c]))
  {
    assert Look(0);
    var before, after, mark := PointMore(push, m, a, c, base, point);
    if before.Running? {
      if InUrl(before.f.stage) {
        UrlLeaves(push, before.f, before.log, c);
      } else {
        BytePast(push, before.f, before.log, c);
      }
    }
  }

  // ---------------------------------------------------------------- a URL in two calls

  lemma GoesTo<L(!new)>(push: Sink<L>, f: Fields, log: L, c: char, s: Stage) returns (m: Machine<L>)
    requires (InUrl(f.stage) || (f.stage == ReqSpacesBeforeUrl && f.method_ != CONNECT)) && f.nread < MAX_HEADER_SIZE
    requires UrlByteOk(c) && ParseUrlChar(f.stage, c) == s != Dead
    ensures m == StepByte(push, Running(f, log), c) && m.Running? && m.f.stage == s && m.f.nread == f.nread + 1
  {
    var g := f.(nread := f.nread + 1);
    m := StepByte(push, Running(f, log), c);
    CountedStep(push, f, g, log, c);
    ExecPlain(push, g, log, c);
    PlainInUrl(g, c, s);
  }

  lemma PlainInUrl(f: Fields, c: char, s: Stage)
    requires InUrl(f.stage) || (f.stage == ReqSpacesBeforeUrl && f.method_ != CONNECT)
    requires UrlByteOk(c) && ParseUrlChar(f.stage, c) == s != Dead
    ensures var a := Plain(f, c); a.next == Done && a.f == f.(stage := s)
  {
    assert RequestLine(f, c) == if f.stage == ReqSpacesBeforeUrl then FirstUrlByte(f, c) else UrlByte(f, c);
  }

  const URL := "/a?b"

  /** These bytes lead to this stage. */
  ghost predicate LeadsTo<L>(push: Sink<L>, m: Machine<L>, text: string, s: Stage, n: nat) {
    forall k {:trigger Look(k)} :: Look(k) ==>
      var after := Run(push, m, text); after.Running? && after.f.stage == s && after.f.nread == n
  }

  lemma NextStage<L(!new)>(push: Sink<L>, m: Machine<L>, init: string, c: char, s: Stage, s': Stage, n: nat, text: string)
    requires LeadsTo(push, m, init, s, n) && n < MAX_HEADER_SIZE && text == init + [c] && InUrl(s)
    requires UrlByteOk(c) && ParseUrlChar(s, c) == s' != Dead
    ensures LeadsTo(push, m, text, s', n + 1)
  {
    assert Look(0) && text[..|init|] == init;
    var before := Run(push, m, init);
    var after := GoesTo(push, before.f, before.log, c, s');
  }

  lemma FirstStage<L(!new)>(push: Sink<L>, f: Fields, log: L)
    requires f.stage == ReqSpacesBeforeUrl && f.method_ != CONNECT && f.nread < MAX_HEADER_SIZE
    ensures LeadsTo(push, Running(f, log), "/", ReqPath, f.nread + 1)
  {
    var after := GoesTo(push, f, log, '/', ReqPath);
    assert "/"[..0] == "" && Run(push, Running(f, log), "") == Running(f, log);
  }

  lemma UrlStages()
    ensures ParseUrlChar(ReqPath, 'a') == ReqPath && ParseUrlChar(ReqPath, '?') == ReqQueryStringStart
    ensures ParseUrlChar(ReqQueryStringStart, 'b') == ReqQueryString
  {
  }

  lemma UrlAccepted<L(!new)>(push: Sink<L>, f: Fields, log: L)
    requires f.stage == ReqSpacesBeforeUrl && f.method_ != CONNECT && f.nread + 4 <= MAX_HEADER_SIZE
    ensures Accepts(push, Running(f, log), URL)
  {
    UrlStages();
    FirstStage(push, f, log);
    NextStage(push, Running(f, log), "/", 'a', ReqPath, ReqPath, f.nread + 1, "/a");
    NextStage(push, Running(f, log), "/a", '?', ReqPath, ReqQueryStringStart, f.nread + 2, "/a?");
    NextStage(push, Running(f, log), "/a?", 'b', ReqQueryStringStart, ReqQueryString, f.nread + 3, URL);
    Accepted(push, Running(f, log), URL, ReqQueryString, f.nread + 4);
  }

  lemma Accepted<L(!new)>(push: Sink<L>, m: Machine<L>, text: string, s: Stage, n: nat)
    requires LeadsTo(push, m, text, s, n)
    ensures Accepts(push, m, text)
  {
    assert Look(0);
  }

  /** Read in one call, the URL `/a?b` is seen without its query; read in two, with it. */
  lemma UrlInPieces<L(!new)>(push: Sink<L>, f: Fields, log: L, bases: seq<nat>)
    requires f.stage == ReqSpacesBeforeUrl && f.method_ != CONNECT && f.nread + 4 <= MAX_HEADER_SIZE
    requires |bases| == 2 && Far(bases, 4)
    ensures UrlSeen(URL, PointOf(push, Running(f, log), ["/a?b"], bases[..1], 0)) == "/a"
    ensures UrlSeen(URL, PointOf(push, Running(f, log), ["/a", "?b"], bases, 0)) == "/a?b"
  {
    UrlAccepted(push, f, log);
    FarStart(bases, 4);
    OneCall(push, f, log, "/a?b", [], bases[..1]);
    OneCall(push, f, log, "/a", ["?b"], bases);
    UrlQuestion();
  }

  lemma FarStart(bases: seq<nat>, least: nat)
    requires Far(bases, least) && bases != []
    ensures Far(bases[..1], least)
  {
    assert Look(0);
  }

  lemma UrlQuestion()
    ensures Question(URL) == 2 && WithoutQuery(URL) == "/a" && Flat([]) == "" && Flat(["?b"]) == "?b"
  {
    assert URL[..2] == "/a" && URL[2] == '?';
  }

  lemma OneCall<L(!new)>(push: Sink<L>, f: Fields, log: L, first: string, rest: seq<string>, bases: seq<nat>)
    requires f.stage == ReqSpacesBeforeUrl && first != "" && first + Flat(rest) == URL && Accepts(push, Running(f, log), URL)
    requires |bases| == 1 + |rest| && Far(bases, 4)
    ensures UrlSeen(URL, PointOf(push, Running(f, log), [first] + rest, bases, 0))
            == if 0 < Question(URL) < |first| then WithoutQuery(URL) else URL
  {
    var m := Running(f, log);
    assert Flat([]) + "" == "" && "" + first == first && "" + URL == URL && [] + ([first] + rest) == [first] + rest;
    assert Run(push, m, "") == m;
    UrlExactly(push, m, [], "", first, rest, bases, 0);
  }
}
