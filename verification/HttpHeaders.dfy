/** Header lines: what the parser makes of any well-formed list of them, whichever names it knows. */
module HttpHeaders {
  import opened Options
  import opened HttpText
  import opened HttpMachine
  import opened HttpParser
  import opened HttpRequests
  import opened HttpBodies
  import opened HttpSafety

  // ---------------------------------------------------------------- pieces of a run

  /** Every byte of the text leaves the parser among header lines, in the trailer or not as before. */
  ghost predicate Stays<L>(push: Sink<L>, m: Machine<L>, text: string) {
    && m.Running?
    && forall k {:trigger Look(k)} | 0 <= k <= |text| ::
         Look(k) ==> Run(push, m, text[..k]).Running? && Within(m.f, Run(push, m, text[..k]).f)
  }

  predicate Within(f: Fields, g: Fields) {
    InLines(g.stage) && g.flags.trailing == f.flags.trailing
  }

  /** The text is read among header lines, and leads to these fields and this log. */
  ghost predicate Reads<L>(push: Sink<L>, m: Machine<L>, text: string, g: Fields, log: L) {
    forall k {:trigger Look(k)} :: Look(k) ==> Stays(push, m, text) && Run(push, m, text) == Running(g, log)
  }

  lemma ReadsMeans<L>(push: Sink<L>, m: Machine<L>, text: string, g: Fields, log: L)
    ensures Reads(push, m, text, g, log) <==> Stays(push, m, text) && Run(push, m, text) == Running(g, log)
  {
    assert Look(0);
  }

  lemma ReadsNothing<L>(push: Sink<L>, f: Fields, log: L)
    requires InLines(f.stage)
    ensures Reads(push, Running(f, log), "", f, log)
  {
    assert ""[..0] == "";
    ReadsMeans(push, Running(f, log), "", f, log);
  }

  lemma ReadsInside<L>(push: Sink<L>, m: Machine<L>, text: string, g: Fields, log: L)
    requires Reads(push, m, text, g, log)
    ensures m.Running? && Within(m.f, g)
  {
    ReadsMeans(push, m, text, g, log);
    assert Look(|text|) && text[..|text|] == text;
  }

  lemma ReadsMore<L>(push: Sink<L>, m: Machine<L>, a: string, b: string, g: Fields, log: L, g': Fields, log': L)
    requires Reads(push, m, a, g, log) && Reads(push, Running(g, log), b, g', log')
    ensures Reads(push, m, a + b, g', log')
  {
    ReadsInside(push, m, a, g, log);
    ReadsMeans(push, m, a, g, log);
    ReadsMeans(push, Running(g, log), b, g', log');
    ReadsMeans(push, m, a + b, g', log');
    RunSplit(push, m, a, b);
    forall k | 0 <= k <= |a + b| ensures Run(push, m, (a + b)[..k]).Running? && Within(m.f, Run(push, m, (a + b)[..k]).f) {
      if k <= |a| {
        assert Look(k) && (a + b)[..k] == a[..k];
      } else {
        assert Look(k - |a|) && (a + b)[..k] == a + b[..k - |a|];
        RunSplit(push, m, a, b[..k - |a|]);
      }
    }
  }

  lemma ReadsOne<L(!new)>(push: Sink<L>, f: Fields, log: L, c: char, g: Fields, log': L)
    requires InLines(f.stage) && Within(f, g) && StepByte(push, Running(f, log), c) == Running(g, log')
    ensures Reads(push, Running(f, log), [c], g, log')
  {
    RunOne(push, Running(f, log), [c]);
    ReadsMeans(push, Running(f, log), [c], g, log');
    forall k | 0 <= k <= 1 ensures Run(push, Running(f, log), [c][..k]).Running? && Within(f, Run(push, Running(f, log), [c][..k]).f) {
      assert [c][..k] == if k == 0 then "" else [c];
    }
  }

  lemma ReadsByte<L(!new)>(push: Sink<L>, m: Machine<L>, a: string, f: Fields, log: L, text: string, g: Fields, log': L)
    requires text != "" && a == text[..|text| - 1] && Reads(push, m, a, f, log) && Within(f, g)
    requires StepByte(push, Running(f, log), text[|text| - 1]) == Running(g, log')
    ensures Reads(push, m, text, g, log')
  {
    ReadsInside(push, m, a, f, log);
    assert text == a + [text[|text| - 1]];
    ReadsOne(push, f, log, text[|text| - 1], g, log');
    ReadsMore(push, m, a, [text[|text| - 1]], f, log, g, log');
  }

  // ---------------------------------------------------------------- comparing with a word

  /** The word may begin with these characters. */
  predicate Begins(p: string, word: string) {
    |p| <= |word| && LowerCase(p) == word[..|p|]
  }

  /** A state in the middle of a word. */
  predicate Matches(s: Scan, p: string, word: string) {
    |p| == s.index + 1 < |word| && Begins(p, word)
  }

  /** Small letters and hyphens. */
  predicate IsWord(word: string) {
    |word| < 32 && forall i | 0 <= i < |word| :: 'a' <= word[i] <= 'z' || word[i] == '-'
  }

  lemma LowerIs(c: char, x: char)
    requires ('a' <= x <= 'z' || x == '-') && c != CR
    ensures Lower(c) == x <==> Small(c) == x
  {
  }

  lemma LowerCaseMore(p: string, c: char)
    ensures LowerCase(p + [c]) == LowerCase(p) + [Small(c)]
  {
  }

  lemma BeginsMore(p: string, c: char, word: string)
    ensures Begins(p + [c], word) <==> Begins(p, word) && |p| < |word| && Small(c) == word[|p|]
  {
    LowerCaseMore(p, c);
    if |p| < |word| {
      assert word[..|p| + 1] == word[..|p|] + [word[|p|]];
      assert (LowerCase(p) + [Small(c)])[..|p|] == LowerCase(p) && (word[..|p|] + [word[|p|]])[..|p|] == word[..|p|];
    }
  }

  lemma BeginsWhole(p: string, word: string)
    ensures LowerCase(p) == word <==> Begins(p, word) && |p| == |word|
  {
    assert word[..|word|] == word;
  }

  /** Two words that differ at a place have no common beginning that reaches it. */
  lemma Apart(p: string, word: string, other: string, i: nat)
    requires i < |p| && i < |word| && i < |other| && word[i] != other[i] && Begins(p, word)
    ensures !Begins(p, other)
  {
    assert LowerCase(p)[i] == word[..|p|][i] == word[i];
    assert |p| <= |other| ==> other[..|p|][i] == other[i];
  }

  /** One character more, in the middle of a word. */
  lemma MatchingMore(s: Scan, p: string, c: char, word: string, found: HeaderState, other: HeaderState)
    requires Matches(s, p, word) && IsWord(word) && c != CR
    ensures var s' := Matching(s, Lower(c), word, found, other);
            && s' == s.(headerState := s'.headerState, index := |p|)
            && if !Begins(p + [c], word) then s'.headerState == other
               else if |p| + 1 == |word| then s'.headerState == found
               else s'.headerState == s.headerState && Matches(s', p + [c], word)
  {
    BeginsMore(p, c, word);
    LowerIs(c, word[|p|]);
  }

  // ---------------------------------------------------------------- names

  /** No name that is looked for begins with these characters. */
  predicate Unknown(p: string) {
    && !Begins(p, "connection") && !Begins(p, "proxy-connection") && !Begins(p, "content-length")
    && !Begins(p, "transfer-encoding") && !Begins(p, "upgrade")
  }

  /** What the state says of a name's first characters, exactly. */
  predicate Spelled(h: HeaderState, s: Scan, p: string) {
    match h
    case General => Unknown(p)
    case C => |p| == 1 && Matches(s, p, "connection")
    case CO => |p| == 2 && Matches(s, p, "connection")
    case CON => |p| == 3 && Matches(s, p, "connection")
    case MatchingConnection => |p| > 3 && Matches(s, p, "connection")
    case MatchingProxyConnection => |p| > 0 && Matches(s, p, "proxy-connection")
    case MatchingContentLength => |p| > 3 && Matches(s, p, "content-length")
    case MatchingTransferEncoding => |p| > 0 && Matches(s, p, "transfer-encoding")
    case MatchingUpgrade => |p| > 0 && Matches(s, p, "upgrade")
    case Connection => LowerCase(p) == "connection" || LowerCase(p) == "proxy-connection"
    case ContentLength => LowerCase(p) == "content-length"
    case TransferEncoding => LowerCase(p) == "transfer-encoding"
    case Upgrade => LowerCase(p) == "upgrade"
    case _ => false
  }

  lemma Words()
    ensures IsWord("connection") && IsWord("proxy-connection") && IsWord("content-length")
    ensures IsWord("transfer-encoding") && IsWord("upgrade")
  {
  }

  /** The five words differ in their first letters, two of them in the fourth. */
  lemma Others(p: string)
    requires p != ""
    ensures Begins(p, "proxy-connection") ==> !Begins(p, "connection") && !Begins(p, "content-length")
                                              && !Begins(p, "transfer-encoding") && !Begins(p, "upgrade")
    ensures Begins(p, "transfer-encoding") ==> !Begins(p, "connection") && !Begins(p, "content-length") && !Begins(p, "upgrade")
    ensures Begins(p, "upgrade") ==> !Begins(p, "connection") && !Begins(p, "content-length")
  {
    if Begins(p, "proxy-connection") {
      Apart(p, "proxy-connection", "connection", 0);
      Apart(p, "proxy-connection", "content-length", 0);
      Apart(p, "proxy-connection", "transfer-encoding", 0);
      Apart(p, "proxy-connection", "upgrade", 0);
    } else if Begins(p, "transfer-encoding") {
      Apart(p, "transfer-encoding", "connection", 0);
      Apart(p, "transfer-encoding", "content-length", 0);
      Apart(p, "transfer-encoding", "upgrade", 0);
    } else if Begins(p, "upgrade") {
      Apart(p, "upgrade", "connection", 0);
      Apart(p, "upgrade", "content-length", 0);
    }
  }

  lemma ConnectionOrLength(p: string)
    requires |p| > 3 && Begins(p, "connection")
    ensures !Begins(p, "content-length")
  {
    Apart(p, "connection", "content-length", 3);
  }

  lemma UnknownMore(p: string, c: char)
    ensures Unknown(p) ==> Unknown(p + [c])
  {
    BeginsMore(p, c, "connection");
    BeginsMore(p, c, "proxy-connection");
    BeginsMore(p, c, "content-length");
    BeginsMore(p, c, "transfer-encoding");
    BeginsMore(p, c, "upgrade");
  }

  /** When the one word that the characters begin ends or differs, no word is left. */
  lemma NoneLeft(p: string, c: char, word: string)
    requires p != "" && Begins(p, word) && !Begins(p + [c], word)
    requires word == "proxy-connection" || word == "transfer-encoding" || word == "upgrade"
          || (|p| > 3 && (word == "connection" || word == "content-length"))
    ensures Unknown(p + [c])
  {
    Others(p);
    if |p| > 3 && Begins(p, "connection") {
      ConnectionOrLength(p);
    }
    BeginsMore(p, c, "connection");
    BeginsMore(p, c, "proxy-connection");
    BeginsMore(p, c, "content-length");
    BeginsMore(p, c, "transfer-encoding");
    BeginsMore(p, c, "upgrade");
  }

  /** What one more character of a name does to the state. */
  ghost predicate NameStepped(s: Scan, p: string, c: char) {
    var r := FieldChar(s, c);
    && r.Ok? && Spelled(r.s.headerState, r.s, p + [c]) && r.s.contentLength == s.contentLength
    && r.s.usesTransferEncoding == (s.usesTransferEncoding || LowerCase(p + [c]) == "transfer-encoding")
  }

  lemma NameStep(s: Scan, p: string, c: char)
    requires p != "" && Spelled(s.headerState, s, p) && TokenChar(c)
    ensures NameStepped(s, p, c)
  {
    var h := s.headerState;
    if h == C || h == CO || h == CON {
      FirstLetters(s, p, c);
    } else if h == MatchingTransferEncoding {
      EncodingLetters(s, p, c);
    } else if h == MatchingConnection || h == MatchingContentLength || h == MatchingProxyConnection || h == MatchingUpgrade {
      LaterLetters(s, p, c);
    } else if h == General {
      UnknownMore(p, c);
      NotEncoding(p + [c]);
    } else {
      AfterName(s, p, c);
    }
  }

  lemma NotEncoding(p: string)
    requires !Begins(p, "transfer-encoding")
    ensures LowerCase(p) != "transfer-encoding"
  {
    BeginsWhole(p, "transfer-encoding");
  }

  lemma FirstLetters(s: Scan, p: string, c: char)
    requires Spelled(s.headerState, s, p) && TokenChar(c) && (s.headerState == C || s.headerState == CO || s.headerState == CON)
    ensures NameStepped(s, p, c)
  {
    BeginsMore(p, c, "connection");
    BeginsMore(p, c, "content-length");
    Beginnings(p);
    LowerIs(c, 'o');
    LowerIs(c, 'n');
    LowerIs(c, 't');
    if !Begins(p + [c], "connection") && !Begins(p + [c], "content-length") {
      FirstLost(p, c);
    }
    Others(p + [c]);
    assert |p + [c]| < 17;
  }

  lemma Beginnings(p: string)
    ensures "connection"[1] == 'o' && "connection"[2] == 'n' && "connection"[3] == 'n' && "content-length"[1] == 'o'
    ensures "content-length"[2] == 'n' && "content-length"[3] == 't'
    ensures |p| <= 3 ==> (Begins(p, "connection") <==> Begins(p, "content-length"))
  {
    assert "connection"[..3] == "content-length"[..3];
    assert |p| <= 3 ==> "connection"[..|p|] == "connection"[..3][..|p|] && "content-length"[..|p|] == "content-length"[..3][..|p|];
  }

  lemma FirstLost(p: string, c: char)
    requires p != "" && Begins(p, "connection")
    requires !Begins(p + [c], "connection") && !Begins(p + [c], "content-length")
    ensures Unknown(p + [c])
  {
    Others(p);
    BeginsMore(p, c, "proxy-connection");
    BeginsMore(p, c, "transfer-encoding");
    BeginsMore(p, c, "upgrade");
  }

  lemma LaterLetters(s: Scan, p: string, c: char)
    requires Spelled(s.headerState, s, p) && TokenChar(c)
    requires s.headerState == MatchingConnection || s.headerState == MatchingProxyConnection
          || s.headerState == MatchingContentLength || s.headerState == MatchingUpgrade
    ensures NameStepped(s, p, c)
  {
    match s.headerState
    case MatchingConnection => WordLetter(s, p, c, "connection", Connection);
    case MatchingProxyConnection => WordLetter(s, p, c, "proxy-connection", Connection);
    case MatchingContentLength => WordLetter(s, p, c, "content-length", ContentLength);
    case MatchingUpgrade => WordLetter(s, p, c, "upgrade", Upgrade);
    assert |p + [c]| < 17;
  }

  lemma EncodingLetters(s: Scan, p: string, c: char)
    requires Spelled(s.headerState, s, p) && TokenChar(c) && s.headerState == MatchingTransferEncoding
    ensures NameStepped(s, p, c)
  {
    WordLetter(s, p, c, "transfer-encoding", TransferEncoding);
  }

  lemma WordLetter(s: Scan, p: string, c: char, word: string, found: HeaderState)
    requires p != "" && Matches(s, p, word) && TokenChar(c) && found != s.headerState && found != General && s.headerState != General
    requires word == "proxy-connection" || word == "transfer-encoding" || word == "upgrade"
          || (|p| > 3 && (word == "connection" || word == "content-length"))
    ensures var s' := Matching(s, Lower(c), word, found, General);
            && s' == s.(headerState := s'.headerState, index := |p|)
            && (s'.headerState == General <==> Unknown(p + [c])) && (s'.headerState == found <==> LowerCase(p + [c]) == word)
            && (s'.headerState == General || s'.headerState == found || (s'.headerState == s.headerState && Matches(s', p + [c], word)))
  {
    Words();
    MatchingMore(s, p, c, word, found, General);
    BeginsWhole(p + [c], word);
    if !Begins(p + [c], word) {
      NoneLeft(p, c, word);
    }
  }

  lemma AfterName(s: Scan, p: string, c: char)
    requires Spelled(s.headerState, s, p) && TokenChar(c)
    requires s.headerState == Connection || s.headerState == ContentLength || s.headerState == TransferEncoding || s.headerState == Upgrade
    ensures NameStepped(s, p, c)
  {
    assert c != ' ';
    LowerCaseMore(p, c);
    WholeEnds(p, c, "connection");
    WholeEnds(p, c, "proxy-connection");
    WholeEnds(p, c, "content-length");
    WholeEnds(p, c, "transfer-encoding");
    WholeEnds(p, c, "upgrade");
    NotEncoding(p + [c]);
  }

  lemma WholeEnds(p: string, c: char, word: string)
    requires word == "connection" || word == "proxy-connection" || word == "content-length"
          || word == "transfer-encoding" || word == "upgrade"
    ensures LowerCase(p) == word ==> Unknown(p + [c])
  {
    if LowerCase(p) == word {
      BeginsWhole(p, word);
      NoneLeft(p, c, word);
    }
  }

  /** In a name, after these characters of it. */
  ghost predicate InName(f: Fields, g: Fields, p: string) {
    && g == LineBegun(f).(stage := HeaderField, headerState := g.headerState, index := g.index,
                          usesTransferEncoding := g.usesTransferEncoding, nread := f.nread + |p|)
    && forall k {:trigger Look(k)} :: Look(k) ==>
         Spelled(g.headerState, ScanOf(g), p) && g.usesTransferEncoding == (f.usesTransferEncoding || Encodes(p))
  }

  lemma TokenIs(c: char)
    requires TokenChar(c)
    ensures IsToken(c) && c != CR && c != LF && c != ' ' && c != '\t' && c != ':'
  {
  }

  /** The state after the first character. */
  lemma FirstLetter(f: Fields, c: char)
    requires TokenChar(c)
    ensures var a := FieldStart(f, c);
            && a == Act(f.(index := 0, stage := HeaderField, headerState := a.f.headerState), Some(Field), None, None, Done)
            && Spelled(a.f.headerState, ScanOf(a.f), [c])
  {
    TokenIs(c);
    LowerIs(c, 'c');
    LowerIs(c, 'p');
    LowerIs(c, 't');
    LowerIs(c, 'u');
    FirstOf(c, "connection");
    FirstOf(c, "proxy-connection");
    FirstOf(c, "content-length");
    FirstOf(c, "transfer-encoding");
    FirstOf(c, "upgrade");
  }

  lemma FirstOf(c: char, word: string)
    requires |word| > 1
    ensures Begins([c], word) <==> Small(c) == word[0]
  {
    assert LowerCase([c]) == [Small(c)] && word[..1] == [word[0]];
  }

  lemma NameBegins<L(!new)>(push: Sink<L>, f: Fields, log: L, c: char) returns (g: Fields)
    requires AtLine(f) && f.nread < MAX_HEADER_SIZE && TokenChar(c)
    ensures InName(f, g, [c])
    ensures StepByte(push, Running(f, log), c) == Running(g, push(Flushed(push, f, log), Data(Field, [c])))
  {
    var f1 := f.(nread := f.nread + 1);
    TokenIs(c);
    CountedStep(push, f, f1, log, c);
    AtNextLine(push, f1, log, c);
    g := FirstInName(f, f1, c);
    FirstByte(push, LineBegun(f1), Flushed(push, f, log), c, g);
  }

  lemma FirstInName(f: Fields, f1: Fields, c: char) returns (g: Fields)
    requires f1 == f.(nread := f.nread + 1) && TokenChar(c)
    ensures InName(f, g, [c]) && FieldStart(LineBegun(f1), c) == Act(g, Some(Field), None, None, Done)
  {
    g := FieldStart(LineBegun(f1), c).f;
    FirstLetter(LineBegun(f1), c);
  }

  lemma FirstByte<L(!new)>(push: Sink<L>, f: Fields, log: L, c: char, g: Fields)
    requires f.stage == HeaderFieldStart && FieldStart(f, c) == Act(g, Some(Field), None, None, Done) && g.stage == HeaderField
    ensures Exec(push, f, log, c) == Running(g, push(log, Data(Field, [c])))
  {
    ExecPlain(push, f, log, c);
  }

  lemma EncodesMore(p: string, c: char)
    ensures Encodes(p + [c]) <==> Encodes(p) || LowerCase(p + [c]) == "transfer-encoding"
  {
    if |p| >= 17 {
      assert (p + [c])[..17] == p[..17];
    } else {
      assert |p + [c]| == 17 ==> (p + [c])[..17] == p + [c];
    }
  }

  lemma NameGoesOn<L(!new)>(push: Sink<L>, f0: Fields, f: Fields, log: L, p: string, c: char) returns (g: Fields)
    requires Joins(push) && InName(f0, f, p) && p != "" && f.nread < MAX_HEADER_SIZE && TokenChar(c)
    ensures InName(f0, g, p + [c])
    ensures StepByte(push, Running(f, push(log, Data(Field, p))), c) == Running(g, push(log, Data(Field, p + [c])))
  {
    TokenIs(c);
    g := NextInName(f0, f, p, c);
    NameByte(push, f, push(log, Data(Field, p)), c, g);
    Join(push, log, Field, p, [c]);
  }

  lemma NextInName(f0: Fields, f: Fields, p: string, c: char) returns (g: Fields)
    requires InName(f0, f, p) && p != "" && TokenChar(c)
    ensures InName(f0, g, p + [c])
    ensures FieldChar(ScanOf(f), c).Ok? && g == WithScan(f.(nread := f.nread + 1), FieldChar(ScanOf(f), c).s)
  {
    assert Look(0);
    NameStep(ScanOf(f), p, c);
    EncodesMore(p, c);
    g := WithScan(f.(nread := f.nread + 1), FieldChar(ScanOf(f), c).s);
  }

  lemma NameByte<L(!new)>(push: Sink<L>, f: Fields, log: L, c: char, g: Fields)
    requires f.stage == HeaderField && f.nread < MAX_HEADER_SIZE && IsToken(c) && FieldChar(ScanOf(f), c).Ok?
    requires g == WithScan(f.(nread := f.nread + 1), FieldChar(ScanOf(f), c).s)
    ensures StepByte(push, Running(f, log), c) == Running(g, push(log, Data(Field, [c])))
  {
    CountedStep(push, f, f.(nread := f.nread + 1), log, c);
  }

  lemma NameReadMore<L(!new)>(push: Sink<L>, f: Fields, h: Fields, m: Machine<L>, log: L, name: string) returns (g: Fields)
    requires Joins(push) && |name| > 1 && NameText(name) && InName(f, h, name[..|name| - 1]) && h.nread < MAX_HEADER_SIZE
    requires Reads(push, m, name[..|name| - 1], h, push(log, Data(Field, name[..|name| - 1])))
    ensures InName(f, g, name) && Reads(push, m, name, g, push(log, Data(Field, name)))
  {
    var init, c := name[..|name| - 1], name[|name| - 1];
    NameTextLast(name);
    g := NameGoesOn(push, f, h, log, init, c);
    assert name == init + [c];
    ReadsByte(push, m, init, h, push(log, Data(Field, init)), name, g, push(log, Data(Field, name)));
  }

  ghost predicate NameText(name: string) {
    forall i {:trigger Look(i)} | 0 <= i < |name| :: Look(i) ==> TokenChar(name[i])
  }

  lemma NameTextBefore(name: string)
    requires name != "" && NameText(name)
    ensures NameText(name[..|name| - 1])
  {
    var init := name[..|name| - 1];
    forall i | 0 <= i < |init| ensures TokenChar(init[i]) {
      assert Look(i);
    }
  }

  lemma NameTextLast(name: string)
    requires name != "" && NameText(name)
    ensures TokenChar(name[|name| - 1])
  {
    assert Look(|name| - 1);
  }

  lemma FirstOfName<L(!new)>(push: Sink<L>, f: Fields, log: L, c: char) returns (g: Fields)
    requires Joins(push) && AtLine(f) && f.nread < MAX_HEADER_SIZE && TokenChar(c)
    ensures InName(f, g, [c]) && Reads(push, Running(f, log), [c], g, push(Flushed(push, f, log), Data(Field, [c])))
  {
    g := NameBegins(push, f, log, c);
    assert InLines(f.stage) && Within(f, g) by {
      NameWithin(f, g, [c]);
    }
    ReadsOne(push, f, log, c, g, push(Flushed(push, f, log), Data(Field, [c])));
  }

  lemma NameWithin(f: Fields, g: Fields, p: string)
    requires AtLine(f) && InName(f, g, p)
    ensures InLines(f.stage) && Within(f, g)
  {
  }

  lemma {:induction false} NameRead<L(!new)>(push: Sink<L>, f: Fields, log: L, name: string) returns (g: Fields)
    requires Joins(push) && AtLine(f) && f.nread + |name| <= MAX_HEADER_SIZE && name != "" && NameText(name)
    ensures InName(f, g, name) && Reads(push, Running(f, log), name, g, push(Flushed(push, f, log), Data(Field, name)))
    decreases |name|
  {
    var init, c := name[..|name| - 1], name[|name| - 1];
    if init == "" {
      assert name == [c];
      NameTextLast(name);
      g := FirstOfName(push, f, log, c);
    } else {
      NameTextBefore(name);
      var h := NameRead(push, f, log, init);
      g := NameReadMore(push, f, h, Running(f, log), Flushed(push, f, log), name);
    }
  }

  /** What the state says of a whole name. */
  predicate NameIs(h: HeaderState, name: string) {
    && (h == Connection <==> LowerCase(name) == "connection" || LowerCase(name) == "proxy-connection")
    && (h == ContentLength <==> LowerCase(name) == "content-length")
    && (h == TransferEncoding <==> LowerCase(name) == "transfer-encoding")
    && (h == Upgrade <==> LowerCase(name) == "upgrade")
    && h != TransferEncodingTokenStart && h != ContentLengthWs
  }

  lemma NameKnown(h: HeaderState, s: Scan, name: string)
    requires name != "" && Spelled(h, s, name)
    ensures NameIs(h, name)
  {
    BeginsWhole(name, "connection");
    BeginsWhole(name, "proxy-connection");
    BeginsWhole(name, "content-length");
    BeginsWhole(name, "transfer-encoding");
    BeginsWhole(name, "upgrade");
    Others(name);
    if |name| > 3 && Begins(name, "connection") {
      ConnectionOrLength(name);
    }
  }

  lemma ColonGoes<L(!new)>(push: Sink<L>, f: Fields, log: L)
    requires f.stage == HeaderField && f.nread < MAX_HEADER_SIZE
    ensures StepByte(push, Running(f, log), ':') == Running(f.(stage := HeaderValueDiscardWs, nread := f.nread + 1), log)
  {
  }

  /** Up to the colon and with it. */
  lemma ColonRead<L(!new)>(push: Sink<L>, f0: Fields, f: Fields, log: L, name: string) returns (g: Fields)
    requires InName(f0, f, name) && name != "" && f.nread < MAX_HEADER_SIZE
    ensures g == f.(stage := HeaderValueDiscardWs, nread := f.nread + 1) && NameIs(g.headerState, name)
    ensures g.usesTransferEncoding == (f0.usesTransferEncoding || Encodes(name))
    ensures Reads(push, Running(f, log), ":", g, log)
  {
    g := f.(stage := HeaderValueDiscardWs, nread := f.nread + 1);
    assert Look(0);
    NameKnown(f.headerState, ScanOf(f), name);
    ColonGoes(push, f, log);
    ReadsOne(push, f, log, ':', g, log);
  }

  lemma {:induction false} BlanksRead<L(!new)>(push: Sink<L>, f: Fields, log: L, blanks: string)
    requires f.stage == HeaderValueDiscardWs && f.nread + |blanks| <= MAX_HEADER_SIZE
    requires forall i | 0 <= i < |blanks| :: Blank(blanks[i])
    ensures Reads(push, Running(f, log), blanks, f.(nread := f.nread + |blanks|), log)
    decreases |blanks|
  {
    if blanks == "" {
      ReadsNothing(push, f, log);
    } else {
      var init, c := blanks[..|blanks| - 1], blanks[|blanks| - 1];
      BlanksRead(push, f, log, init);
      var g := f.(nread := f.nread + |init|);
      BlankGoes(push, g, log, c);
      ReadsByte(push, Running(f, log), init, g, log, blanks, f.(nread := f.nread + |blanks|), log);
    }
  }

  lemma BlankGoes<L(!new)>(push: Sink<L>, f: Fields, log: L, c: char)
    requires f.stage == HeaderValueDiscardWs && Blank(c) && f.nread < MAX_HEADER_SIZE
    ensures StepByte(push, Running(f, log), c) == Running(f.(nread := f.nread + 1), log)
  {
  }

  // ---------------------------------------------------------------- values

  datatype ValueKind = Unread | Conn | Coding | Length

  /** How a value is looked at. */
  function KindOf(h: HeaderState): ValueKind {
    match h
    case Connection => Conn
    case TransferEncoding => Coding
    case ContentLength => Length
    case _ => Unread
  }

  predicate Fits(k: ValueKind, v: string) {
    match k
    case Coding => Begins(v, "chunked") || Word(v, "chunked")
    case Length => LengthText(v)
    case _ => true
  }

  predicate NoWord(v: string) {
    !Begins(v, "keep-alive") && !Word(v, "keep-alive") && !Begins(v, "close") && !Word(v, "close")
  }

  /** What the state says of the value of a `Connection` header so far, exactly. */
  predicate ConnectionSays(s: Scan, v: string) {
    match s.headerState
    case ConnectionMatchingKeepAlive => v != "" && Matches(s, v, "keep-alive")
    case ConnectionMatchingClose => v != "" && Matches(s, v, "close")
    case ConnectionKeepAlive => Word(v, "keep-alive")
    case ConnectionClose => Word(v, "close")
    case General => NoWord(v)
    case _ => false
  }

  predicate CodingSays(s: Scan, v: string) {
    || (s.headerState == TransferEncodingMatchingChunked && Matches(s, v, "chunked"))
    || (s.headerState == TransferEncodingChunked && Word(v, "chunked"))
  }

  predicate LengthSays(s: Scan, v: string) {
    && s.headerState == (if |Digits(v)| == |v| then ContentLengthNum else ContentLengthWs)
    && s.contentLength == Decimal(Digits(v))
  }

  /** What the state says of a value so far. `n` is the length that was known before. */
  predicate ValueSays(k: ValueKind, s: Scan, n: nat, v: string) {
    match k
    case Unread => s.headerState == General && s.contentLength == n
    case Conn => ConnectionSays(s, v) && s.contentLength == n
    case Coding => CodingSays(s, v) && s.contentLength == n
    case Length => LengthSays(s, v)
  }

  lemma WordMore(v: string, c: char, word: string)
    ensures Word(v + [c], word) <==> (Word(v, word) && c == ' ') || LowerCase(v + [c]) == word
  {
    if |v| + 1 == |word| {
      assert (v + [c])[..|word|] == v + [c];
    } else if |v| >= |word| {
      assert (v + [c])[..|word|] == v[..|word|] && (v + [c])[|v|] == c;
      assert forall i | |word| <= i < |v| :: (v + [c])[i] == v[i];
    }
  }

  lemma WordBegins(v: string, word: string)
    ensures Word(v, word) && |v| <= |word| ==> Begins(v, word)
    ensures Word(v, word) && word != "" ==> v != "" && Small(v[0]) == word[0]
    ensures Begins(v, word) && v != "" ==> Small(v[0]) == word[0]
  {
    assert |v| == |word| ==> v[..|word|] == v && word[..|v|] == word;
    if Word(v, word) && word != "" {
      assert LowerCase(v[..|word|])[0] == Small(v[0]);
    }
    if Begins(v, word) && v != "" {
      assert LowerCase(v)[0] == Small(v[0]) && word[..|v|][0] == word[0];
    }
  }

  lemma ValueWords()
    ensures IsWord("keep-alive") && IsWord("close") && IsWord("chunked")
    ensures "keep-alive"[0] == 'k' && "close"[0] == 'c' && "chunked"[0] == 'c'
  {
  }

  lemma FirstConnection(f: Fields, c: char)
    requires f.headerState == Connection && TextChar(c) && !Blank(c)
    ensures var a := ValueStart(f, c);
            && a == Act(f.(stage := HeaderValue, index := 0, headerState := a.f.headerState), Some(Value), None, None, Done)
            && ConnectionSays(ScanOf(a.f), [c])
  {
    LowerIs(c, 'k');
    LowerIs(c, 'c');
    FirstOf(c, "keep-alive");
    FirstOf(c, "close");
    assert Lower(c) != ' ' && Lower(c) != '\t';
    assert !Word([c], "keep-alive") && !Word([c], "close");
    ValueWords();
  }

  lemma FirstCoding(f: Fields, c: char)
    requires f.headerState == TransferEncoding && TextChar(c) && Fits(Coding, [c])
    ensures var a := ValueStart(f, c);
            && a == Act(f.(stage := HeaderValue, index := 0, headerState := TransferEncodingMatchingChunked), Some(Value), None, None, Done)
            && CodingSays(ScanOf(a.f), [c])
  {
    LowerIs(c, 'c');
    FirstOf(c, "chunked");
    ValueWords();
  }

  lemma FirstLength(f: Fields, c: char)
    requires f.headerState == ContentLength && !f.flags.contentLength && Fits(Length, [c])
    ensures var a := ValueStart(f, c);
            && a == Act(f.(stage := HeaderValue, index := 0, headerState := ContentLengthNum, contentLength := a.f.contentLength,
                           flags := f.flags.(contentLength := true)), Some(Value), None, None, Done)
            && LengthSays(ScanOf(a.f), [c])
  {
    assert Digits([c]) == [c];
    assert Decimal([c]) == c as int - '0' as int by {
      assert [c][..0] == "";
    }
  }

  lemma FirstPlain(f: Fields, c: char)
    requires KindOf(f.headerState) == Unread && f.headerState != TransferEncodingTokenStart && f.headerState != ContentLengthWs
    ensures ValueStart(f, c)
            == Act(f.(stage := HeaderValue, index := 0, headerState := General, flags := Started(f)), Some(Value), None, None, Done)
  {
  }

  /** What the first character of a value says. */
  function Started(f: Fields): Flags {
    match f.headerState
    case Upgrade => f.flags.(upgrade := true)
    case ContentLength => f.flags.(contentLength := true)
    case _ => f.flags
  }

  // ---------------------------------------------------------------- one character more

  lemma ConnectionMore(s: Scan, v: string, c: char)
    requires v != "" && ConnectionSays(s, v) && TextChar(c)
    ensures var r := ValueChar(s, c);
            && r.Ok? && ConnectionSays(r.s, v + [c]) && r.s.contentLength == s.contentLength
            && r.s.usesTransferEncoding == s.usesTransferEncoding
  {
    ValueWords();
    BeginsMore(v, c, "keep-alive");
    BeginsMore(v, c, "close");
    WordMore(v, c, "keep-alive");
    WordMore(v, c, "close");
    BeginsWhole(v + [c], "keep-alive");
    BeginsWhole(v + [c], "close");
    OneWord(v);
    match s.headerState
    case ConnectionMatchingKeepAlive => MatchingMore(s, v, c, "keep-alive", ConnectionKeepAlive, General);
    case ConnectionMatchingClose => MatchingMore(s, v, c, "close", ConnectionClose, General);
    case _ =>
  }

  /** Two words with different first letters. */
  lemma OneWord(v: string)
    requires v != ""
    ensures Begins(v, "keep-alive") || Word(v, "keep-alive") ==> !Begins(v, "close") && !Word(v, "close")
  {
    ValueWords();
    WordBegins(v, "keep-alive");
    WordBegins(v, "close");
  }

  lemma CodingMore(s: Scan, v: string, c: char)
    requires v != "" && CodingSays(s, v) && TextChar(c) && Fits(Coding, v + [c])
    ensures var r := ValueChar(s, c);
            && r.Ok? && CodingSays(r.s, v + [c]) && r.s.contentLength == s.contentLength
            && r.s.usesTransferEncoding == s.usesTransferEncoding
  {
    ValueWords();
    BeginsMore(v, c, "chunked");
    WordMore(v, c, "chunked");
    BeginsWhole(v + [c], "chunked");
    if s.headerState == TransferEncodingMatchingChunked {
      MatchingMore(s, v, c, "chunked", TransferEncodingChunked, TransferEncodingToken);
    }
  }

  lemma {:induction false} DigitsMore(v: string, c: char)
    ensures Digits(v + [c]) == if |Digits(v)| == |v| && Numeral(c) then v + [c] else Digits(v)
    decreases |v|
  {
    if v != "" {
      assert (v + [c])[1..] == v[1..] + [c];
      DigitsMore(v[1..], c);
    }
  }

  lemma LengthBefore(v: string, c: char)
    requires v != "" && LengthText(v + [c])
    ensures LengthText(v) && (if |Digits(v)| == |v| then Numeral(c) || c == ' ' else c == ' ')
    ensures Digits(v + [c]) == if |Digits(v)| == |v| && Numeral(c) then v + [c] else Digits(v)
    ensures |Digits(v)| == |v| && Numeral(c) ==> Decimal(v) <= (MAX_LENGTH - 10) / 10
  {
    DigitsMore(v, c);
    var d := Digits(v + [c]);
    if |Digits(v)| == |v| && Numeral(c) {
      assert d[..|d| - 1] == v && Digits(v) == v;
      assert Decimal(v[..|v| - 1]) <= Decimal(v);
    } else {
      assert (v + [c])[|v|] == c;
      assert forall i | |d| <= i < |v| :: (v + [c])[i] == v[i];
    }
  }

  lemma LengthMore(s: Scan, v: string, c: char)
    requires v != "" && LengthSays(s, v) && Fits(Length, v + [c])
    ensures var r := ValueChar(s, c); r.Ok? && LengthSays(r.s, v + [c]) && r.s.usesTransferEncoding == s.usesTransferEncoding
  {
    LengthBefore(v, c);
    if |Digits(v)| == |v| && Numeral(c) {
      assert (v + [c])[..|v|] == v && (v + [c])[|v|] == c && Digits(v) == v;
    }
  }

  lemma FitsBefore(k: ValueKind, v: string, c: char)
    requires v != "" && Fits(k, v + [c])
    ensures Fits(k, v)
  {
    match k
    case Coding =>
      BeginsMore(v, c, "chunked");
      WordMore(v, c, "chunked");
      BeginsWhole(v + [c], "chunked");
    case Length => LengthBefore(v, c);
    case _ =>
  }

  // ---------------------------------------------------------------- a value on the machine

  /** In a value, after these characters of it. */
  ghost predicate InValue(f: Fields, g: Fields, v: string) {
    && g == f.(stage := HeaderValue, headerState := g.headerState, index := g.index, contentLength := g.contentLength,
               flags := Started(f), nread := f.nread + |v|)
    && forall k {:trigger Look(k)} :: Look(k) ==> ValueSays(KindOf(f.headerState), ScanOf(g), f.contentLength, v)
  }

  /** In front of a value whose name has been read. */
  predicate AtValue(f: Fields) {
    f.stage == HeaderValueDiscardWs && f.headerState != TransferEncodingTokenStart && f.headerState != ContentLengthWs
  }

  ghost predicate ValueText(f: Fields, v: string) {
    && (v != "" ==> !Blank(v[0])) && (forall i | 0 <= i < |v| :: TextChar(v[i]))
    && (v != "" ==> Fits(KindOf(f.headerState), v) && (f.headerState == ContentLength ==> !f.flags.contentLength))
  }

  lemma TextIs(c: char)
    requires TextChar(c)
    ensures Ordinary(c) && c != CR && c != LF
  {
  }

  lemma ValueBegins<L(!new)>(push: Sink<L>, f: Fields, log: L, c: char) returns (g: Fields)
    requires AtValue(f) && f.nread < MAX_HEADER_SIZE && ValueText(f, [c])
    ensures InValue(f, g, [c]) && StepByte(push, Running(f, log), c) == Running(g, push(log, Data(Value, [c])))
  {
    var f1 := f.(nread := f.nread + 1);
    g := FirstInValue(f, f1, c);
    CountedStep(push, f, f1, log, c);
    ValueFirstByte(push, f1, log, c, g);
  }

  lemma FirstInValue(f: Fields, f1: Fields, c: char) returns (g: Fields)
    requires AtValue(f) && ValueText(f, [c]) && f1 == f.(nread := f.nread + 1)
    ensures InValue(f, g, [c]) && ValueStart(f1, c) == Act(g, Some(Value), None, None, Done) && TextChar(c) && !Blank(c)
  {
    assert TextChar([c][0]) && !Blank([c][0]);
    g := FirstOfValue(f1, c);
  }

  lemma FirstOfValue(f: Fields, c: char) returns (g: Fields)
    requires AtValue(f) && ValueText(f, [c])
    ensures ValueStart(f, c) == Act(g, Some(Value), None, None, Done) && ValueSays(KindOf(f.headerState), ScanOf(g), f.contentLength, [c])
    ensures g == f.(stage := HeaderValue, headerState := g.headerState, index := g.index, contentLength := g.contentLength, flags := Started(f))
  {
    g := ValueStart(f, c).f;
    assert TextChar([c][0]) && !Blank([c][0]);
    match KindOf(f.headerState)
    case Conn => FirstConnection(f, c);
    case Coding => FirstCoding(f, c);
    case Length => FirstLength(f, c);
    case Unread => FirstPlain(f, c);
  }

  lemma ValueFirstByte<L(!new)>(push: Sink<L>, f: Fields, log: L, c: char, g: Fields)
    requires f.stage == HeaderValueDiscardWs && TextChar(c) && !Blank(c)
    requires ValueStart(f, c) == Act(g, Some(Value), None, None, Done) && g.stage == HeaderValue
    ensures Exec(push, f, log, c) == Running(g, push(log, Data(Value, [c])))
  {
    TextIs(c);
    assert Plain(f, c) == ValueStart(f, c);
    ExecPlain(push, f, log, c);
  }

  lemma ValueStep(k: ValueKind, s: Scan, n: nat, v: string, c: char)
    requires v != "" && ValueSays(k, s, n, v) && TextChar(c) && Fits(k, v + [c])
    ensures var r := ValueChar(s, c);
            r.Ok? && ValueSays(k, r.s, n, v + [c]) && r.s.usesTransferEncoding == s.usesTransferEncoding
  {
    match k
    case Conn => ConnectionMore(s, v, c);
    case Coding => CodingMore(s, v, c);
    case Length => LengthMore(s, v, c);
    case Unread =>
  }

  lemma ValueGoesOn<L(!new)>(push: Sink<L>, f0: Fields, f: Fields, log: L, v: string, c: char) returns (g: Fields)
    requires Joins(push) && InValue(f0, f, v) && v != "" && f.nread < MAX_HEADER_SIZE && TextChar(c)
    requires Fits(KindOf(f0.headerState), v + [c])
    ensures InValue(f0, g, v + [c])
    ensures StepByte(push, Running(f, push(log, Data(Value, v))), c) == Running(g, push(log, Data(Value, v + [c])))
  {
    g := NextInValue(f0, f, v, c);
    ValueByte(push, f, push(log, Data(Value, v)), c, g);
    Join(push, log, Value, v, [c]);
  }

  lemma NextInValue(f0: Fields, f: Fields, v: string, c: char) returns (g: Fields)
    requires InValue(f0, f, v) && v != "" && TextChar(c) && Fits(KindOf(f0.headerState), v + [c])
    ensures InValue(f0, g, v + [c])
    ensures ValueChar(ScanOf(f), c).Ok? && g == WithScan(f.(nread := f.nread + 1), ValueChar(ScanOf(f), c).s)
  {
    assert Look(0);
    ValueStep(KindOf(f0.headerState), ScanOf(f), f0.contentLength, v, c);
    g := WithScan(f.(nread := f.nread + 1), ValueChar(ScanOf(f), c).s);
  }

  lemma ValueByte<L(!new)>(push: Sink<L>, f: Fields, log: L, c: char, g: Fields)
    requires f.stage == HeaderValue && f.nread < MAX_HEADER_SIZE && TextChar(c) && ValueChar(ScanOf(f), c).Ok?
    requires g == WithScan(f.(nread := f.nread + 1), ValueChar(ScanOf(f), c).s)
    ensures StepByte(push, Running(f, log), c) == Running(g, push(log, Data(Value, [c])))
  {
    TextIs(c);
    CountedStep(push, f, f.(nread := f.nread + 1), log, c);
  }

  lemma ValueReadMore<L(!new)>(push: Sink<L>, f0: Fields, f: Fields, m: Machine<L>, log: L, value: string) returns (g: Fields)
    requires Joins(push) && |value| > 1 && TextChar(value[|value| - 1]) && Fits(KindOf(f0.headerState), value)
    requires InValue(f0, f, value[..|value| - 1]) && f.nread < MAX_HEADER_SIZE
    requires Reads(push, m, value[..|value| - 1], f, push(log, Data(Value, value[..|value| - 1])))
    ensures InValue(f0, g, value) && Reads(push, m, value, g, push(log, Data(Value, value)))
  {
    var init, c := value[..|value| - 1], value[|value| - 1];
    assert value == init + [c];
    g := ValueGoesOn(push, f0, f, log, init, c);
    ReadsByte(push, m, init, f, push(log, Data(Value, init)), value, g, push(log, Data(Value, value)));
  }

  lemma {:induction false} ValueRead<L(!new)>(push: Sink<L>, f: Fields, log: L, value: string) returns (g: Fields)
    requires Joins(push) && AtValue(f) && ValueText(f, value) && value != "" && f.nread + |value| <= MAX_HEADER_SIZE
    ensures InValue(f, g, value) && Reads(push, Running(f, log), value, g, push(log, Data(Value, value)))
    decreases |value|
  {
    var init, c := value[..|value| - 1], value[|value| - 1];
    if init == "" {
      assert value == [c];
      g := ValueBegins(push, f, log, c);
      ReadsOne(push, f, log, c, g, push(log, Data(Value, value)));
    } else {
      assert value == init + [c];
      FitsBefore(KindOf(f.headerState), init, c);
      var h := ValueRead(push, f, log, init);
      g := ValueReadMore(push, f, h, Running(f, log), log, value);
    }
  }

  /** The end of a line, after a value or after blanks only. */
  lemma LineEnds<L(!new)>(push: Sink<L>, f: Fields, log: L) returns (g: Fields)
    requires (f.stage == HeaderValue || f.stage == HeaderValueDiscardWs) && f.nread + 2 <= MAX_HEADER_SIZE
    ensures g == f.(stage := if f.stage == HeaderValue then HeaderValueLws else HeaderValueDiscardLws, nread := f.nread + 2)
    ensures Reads(push, Running(f, log), "\r\n", g, log)
  {
    var value := f.stage == HeaderValue;
    var h := f.(stage := if value then HeaderAlmostDone else HeaderValueDiscardWsAlmostDone, nread := f.nread + 1);
    g := h.(stage := if value then HeaderValueLws else HeaderValueDiscardLws, nread := h.nread + 1);
    ReturnGoes(push, f, log);
    FeedGoes(push, h, log);
    ReadsOne(push, f, log, CR, h, log);
    ReadsByte(push, Running(f, log), [CR], h, log, "\r\n", g, log);
  }

  lemma ReturnGoes<L(!new)>(push: Sink<L>, f: Fields, log: L)
    requires (f.stage == HeaderValue || f.stage == HeaderValueDiscardWs) && f.nread < MAX_HEADER_SIZE
    ensures StepByte(push, Running(f, log), CR)
            == Running(f.(stage := if f.stage == HeaderValue then HeaderAlmostDone else HeaderValueDiscardWsAlmostDone,
                          nread := f.nread + 1), log)
  {
  }

  lemma FeedGoes<L(!new)>(push: Sink<L>, f: Fields, log: L)
    requires (f.stage == HeaderAlmostDone || f.stage == HeaderValueDiscardWsAlmostDone) && f.nread < MAX_HEADER_SIZE
    ensures StepByte(push, Running(f, log), LF)
            == Running(f.(stage := if f.stage == HeaderAlmostDone then HeaderValueLws else HeaderValueDiscardLws,
                          nread := f.nread + 1), log)
  {
  }

  // ---------------------------------------------------------------- whole lines

  /** What the lines so far have said. */
  datatype Head = Head(flags: Flags, uses: bool, length: nat)

  function HeadOf(f: Fields): Head {
    Head(Settled(f), f.usesTransferEncoding, f.contentLength)
  }

  function AfterHeader(d: Head, h: Header): Head {
    Head(d.flags.(keepAlive := d.flags.keepAlive || KeepsAlive(h), close := d.flags.close || Closes(h),
                  chunked := d.flags.chunked || SaysChunked(h), upgrade := d.flags.upgrade || Upgrades(h),
                  contentLength := d.flags.contentLength || HasLength(h)),
         d.uses || Encodes(h.name),
         if HasLength(h) then Decimal(Digits(h.value)) else d.length)
  }

  /** The rest of the fields: the request line, and the count of bytes. */
  ghost predicate Carries(f: Fields, g: Fields, n: nat) {
    && g.method_ == f.method_ && g.major == f.major && g.minor == f.minor && g.upgrade == f.upgrade
    && g.flags.trailing == f.flags.trailing && g.nread == f.nread + n
  }

  /** What a value says at its end. */
  lemma ValueMeans(f: Fields, g: Fields, h: Header)
    requires AtValue(f) && NameIs(f.headerState, h.name) && h.value != "" && InValue(f, g, h.value)
    ensures Settle(g.flags, g.headerState)
            == f.flags.(keepAlive := f.flags.keepAlive || KeepsAlive(h), close := f.flags.close || Closes(h),
                        chunked := f.flags.chunked || SaysChunked(h), upgrade := f.flags.upgrade || Upgrades(h),
                        contentLength := f.flags.contentLength || HasLength(h))
    ensures g.contentLength == if HasLength(h) then Decimal(Digits(h.value)) else f.contentLength
  {
    assert Look(0);
    match KindOf(f.headerState)
    case Conn => ConnectionMeans(ScanOf(g), h.value);
    case Coding => CodingMeans(ScanOf(g), h.value);
    case _ =>
  }

  lemma ConnectionMeans(s: Scan, v: string)
    requires v != "" && ConnectionSays(s, v)
    ensures s.headerState == ConnectionKeepAlive <==> Word(v, "keep-alive")
    ensures s.headerState == ConnectionClose <==> Word(v, "close")
  {
    OneWord(v);
    WordBegins(v, "keep-alive");
    WordBegins(v, "close");
  }

  lemma CodingMeans(s: Scan, v: string)
    requires v != "" && CodingSays(s, v)
    ensures s.headerState == TransferEncodingChunked <==> Word(v, "chunked")
  {
    WordBegins(v, "chunked");
  }

  lemma NothingSaid(d: Head, h: Header)
    requires h.value == ""
    ensures AfterHeader(d, h) == Head(d.flags, d.uses || Encodes(h.name), d.length)
  {
  }

  /** The name is known, and the value may be read. */
  ghost predicate MayRead(f: Fields, h: Header) {
    AtValue(f) && NameIs(f.headerState, h.name) && ValueText(f, h.value)
  }

  lemma AfterBlanks<L(!new)>(push: Sink<L>, f: Fields, log: L, h: Header) returns (g: Fields, log': L)
    requires Joins(push) && MayRead(f, h) && f.nread + |h.value| + 2 <= MAX_HEADER_SIZE
    ensures AtLine(g) && Carries(f, g, |h.value| + 2) && Flushed(push, g, log') == push(log, Data(Value, h.value))
    ensures HeadOf(g) == AfterHeader(Head(f.flags, f.usesTransferEncoding, f.contentLength), h).(uses := f.usesTransferEncoding)
    ensures Reads(push, Running(f, log), h.value + "\r\n", g, log')
  {
    if h.value == "" {
      g := LineEnds(push, f, log);
      log' := log;
      NothingSaid(Head(f.flags, f.usesTransferEncoding, f.contentLength), h);
      assert h.value + "\r\n" == "\r\n";
    } else {
      log' := push(log, Data(Value, h.value));
      g := AfterValue(push, f, log, h, log');
    }
  }

  lemma AfterValue<L(!new)>(push: Sink<L>, f: Fields, log: L, h: Header, log': L) returns (g: Fields)
    requires Joins(push) && MayRead(f, h) && h.value != "" && f.nread + |h.value| + 2 <= MAX_HEADER_SIZE
    requires log' == push(log, Data(Value, h.value))
    ensures g.stage == HeaderValueLws && Carries(f, g, |h.value| + 2)
    ensures HeadOf(g) == AfterHeader(Head(f.flags, f.usesTransferEncoding, f.contentLength), h).(uses := f.usesTransferEncoding)
    ensures Reads(push, Running(f, log), h.value + "\r\n", g, log')
  {
    var f1 := ValueRead(push, f, log, h.value);
    g := LineEnds(push, f1, log');
    ValueMeans(f, f1, h);
    ValueCarries(f, f1, g, h.value);
    ReadsMore(push, Running(f, log), h.value, "\r\n", f1, log', g, log');
  }

  lemma ValueCarries(f: Fields, f1: Fields, g: Fields, v: string)
    requires InValue(f, f1, v) && g == f1.(stage := HeaderValueLws, nread := f1.nread + 2)
    ensures Carries(f, g, |v| + 2) && HeadOf(g) == Head(Settle(f1.flags, f1.headerState), f.usesTransferEncoding, f1.contentLength)
  {
  }

  lemma AfterColon<L(!new)>(push: Sink<L>, f: Fields, log: L, h: Header) returns (g: Fields, log': L)
    requires Joins(push) && MayRead(f, h) && f.nread + |h.blanks| + |h.value| + 2 <= MAX_HEADER_SIZE
    requires forall i | 0 <= i < |h.blanks| :: Blank(h.blanks[i])
    ensures AtLine(g) && Carries(f, g, |h.blanks| + |h.value| + 2) && Flushed(push, g, log') == push(log, Data(Value, h.value))
    ensures HeadOf(g) == AfterHeader(Head(f.flags, f.usesTransferEncoding, f.contentLength), h).(uses := f.usesTransferEncoding)
    ensures Reads(push, Running(f, log), h.blanks + (h.value + "\r\n"), g, log')
  {
    BlanksRead(push, f, log, h.blanks);
    var f1 := f.(nread := f.nread + |h.blanks|);
    g, log' := AfterBlanks(push, f1, log, h);
    ReadsMore(push, Running(f, log), h.blanks, h.value + "\r\n", f1, log, g, log');
  }

  /** The line may follow what has been said. */
  predicate MayFollow(d: Head, h: Header) {
    WellFormedHeader(h) && !(d.flags.contentLength && HasLength(h))
  }

  lemma NameThenValue(f0: Fields, f: Fields, h: Header)
    requires MayFollow(HeadOf(f0), h) && f.flags == Settled(f0) && f.stage == HeaderValueDiscardWs && NameIs(f.headerState, h.name)
    ensures MayRead(f, h)
  {
  }

  /** What the callbacks have seen when the next line, or the blank line, has begun. */
  function WithHeader<L>(push: Sink<L>, log: L, h: Header): L {
    push(push(log, Data(Field, h.name)), Data(Value, h.value))
  }

  /** One line: it is handed over, and what it says is added to what the lines before it have said. */
  lemma LineRead<L(!new)>(push: Sink<L>, f: Fields, log: L, h: Header) returns (g: Fields, log': L)
    requires Joins(push) && AtLine(f) && MayFollow(HeadOf(f), h) && f.nread + |Line(h)| <= MAX_HEADER_SIZE
    ensures AtLine(g) && Carries(f, g, |Line(h)|) && HeadOf(g) == AfterHeader(HeadOf(f), h)
    ensures Flushed(push, g, log') == WithHeader(push, Flushed(push, f, log), h)
    ensures Reads(push, Running(f, log), Line(h), g, log')
  {
    var log1 := push(Flushed(push, f, log), Data(Field, h.name));
    var f1, f2 := NameAndColon(push, f, log, h, log1);
    NameThenValue(f, f2, h);
    g, log' := AfterColon(push, f2, log1, h);
    LineJoins(push, f, log, h, f1, log1, f2, g, log');
  }

  lemma NameAndColon<L(!new)>(push: Sink<L>, f: Fields, log: L, h: Header, log1: L) returns (f1: Fields, f2: Fields)
    requires Joins(push) && AtLine(f) && WellFormedHeader(h) && f.nread + |h.name| + 1 <= MAX_HEADER_SIZE
    requires log1 == push(Flushed(push, f, log), Data(Field, h.name))
    ensures Reads(push, Running(f, log), h.name, f1, log1) && Reads(push, Running(f1, log1), ":", f2, log1)
    ensures f2.stage == HeaderValueDiscardWs && NameIs(f2.headerState, h.name) && Carries(f, f2, |h.name| + 1)
    ensures Head(f2.flags, f2.usesTransferEncoding, f2.contentLength) == HeadOf(f).(uses := f.usesTransferEncoding || Encodes(h.name))
  {
    f1 := NameRead(push, f, log, h.name);
    f2 := ColonRead(push, f, f1, log1, h.name);
  }

  lemma LineJoins<L(!new)>(push: Sink<L>, f: Fields, log: L, h: Header, f1: Fields, log1: L, f2: Fields, g: Fields, log': L)
    requires Reads(push, Running(f, log), h.name, f1, log1) && Reads(push, Running(f1, log1), ":", f2, log1)
    requires Reads(push, Running(f2, log1), h.blanks + (h.value + "\r\n"), g, log')
    ensures Reads(push, Running(f, log), Line(h), g, log')
  {
    ReadsMore(push, Running(f1, log1), ":", h.blanks + (h.value + "\r\n"), f2, log1, g, log');
    ReadsMore(push, Running(f, log), h.name, ":" + (h.blanks + (h.value + "\r\n")), f1, log1, g, log');
  }

  // ---------------------------------------------------------------- lists of lines

  function HeadAfter(d: Head, hs: seq<Header>): Head {
    if hs == [] then d else AfterHeader(HeadAfter(d, hs[..|hs| - 1]), hs[|hs| - 1])
  }

  /** What the callbacks see of the lines. */
  function HeadersOf(hs: seq<Header>): seq<Event> {
    if hs == [] then []
    else HeadersOf(hs[..|hs| - 1]) + [Data(Field, hs[|hs| - 1].name), Data(Value, hs[|hs| - 1].value)]
  }

  lemma ExistsMore(hs: seq<Header>, p: Header -> bool)
    requires hs != []
    ensures Exists(hs, p) <==> Exists(hs[..|hs| - 1], p) || p(hs[|hs| - 1])
  {
    var init := hs[..|hs| - 1];
    if Exists(hs, p) && !p(hs[|hs| - 1]) {
      var i :| 0 <= i < |hs| && p(hs[i]);
      assert p(init[i]);
    }
    if Exists(init, p) {
      var i :| 0 <= i < |init| && p(init[i]);
      assert p(hs[i]);
    }
  }

  /** Whether a line says so, for each of the flags. */
  ghost predicate Says(d: Head, hs: seq<Header>, r: Head) {
    && r.flags.keepAlive == (d.flags.keepAlive || Exists(hs, KeepsAlive))
    && r.flags.close == (d.flags.close || Exists(hs, Closes))
    && r.flags.chunked == (d.flags.chunked || Exists(hs, SaysChunked))
    && r.flags.upgrade == (d.flags.upgrade || Exists(hs, Upgrades))
    && r.flags.contentLength == (d.flags.contentLength || Exists(hs, HasLength))
    && r.flags.trailing == d.flags.trailing
    && r.uses == (d.uses || Exists(hs, UsesEncoding))
  }

  lemma {:induction false} LinesSay(d: Head, hs: seq<Header>)
    ensures Says(d, hs, HeadAfter(d, hs))
    decreases |hs|
  {
    if hs != [] {
      LinesSay(d, hs[..|hs| - 1]);
      SaysMore(d, hs, HeadAfter(d, hs[..|hs| - 1]));
    }
  }

  lemma SaysMore(d: Head, hs: seq<Header>, r: Head)
    requires hs != [] && Says(d, hs[..|hs| - 1], r)
    ensures Says(d, hs, AfterHeader(r, hs[|hs| - 1]))
  {
    ExistsMore(hs, KeepsAlive);
    ExistsMore(hs, Closes);
    ExistsMore(hs, SaysChunked);
    ExistsMore(hs, Upgrades);
    ExistsMore(hs, HasLength);
    ExistsMore(hs, UsesEncoding);
  }

  /** The length is the one that a line gives. */
  lemma {:induction false} LengthSaid(d: Head, hs: seq<Header>)
    requires WellFormedHeaders(hs)
    ensures !Exists(hs, HasLength) ==> HeadAfter(d, hs).length == d.length
    ensures forall i | 0 <= i < |hs| && HasLength(hs[i]) :: HeadAfter(d, hs).length == Decimal(Digits(hs[i].value))
    decreases |hs|
  {
    if hs != [] {
      var init := hs[..|hs| - 1];
      LengthSaid(d, init);
      ExistsMore(hs, HasLength);
      forall i | 0 <= i < |init| ensures init[i] == hs[i] {
      }
    }
  }

  lemma FoldTwo<L>(push: Sink<L>, log: L, es: seq<Event>, a: Event, b: Event)
    ensures Fold(push, log, es + [a, b]) == push(push(Fold(push, log, es), a), b)
  {
    assert es + [a, b] == (es + [a]) + [b];
    FoldPushed(push, log, es, a);
    FoldPushed(push, log, es + [a], b);
  }

  /** The lines may follow what has been said: at most one length in all. */
  ghost predicate AllMayFollow(d: Head, hs: seq<Header>) {
    WellFormedHeaders(hs) && (d.flags.contentLength ==> !Exists(hs, HasLength))
  }

  lemma LastMayFollow(d: Head, hs: seq<Header>)
    requires hs != [] && AllMayFollow(d, hs)
    ensures AllMayFollow(d, hs[..|hs| - 1]) && MayFollow(HeadAfter(d, hs[..|hs| - 1]), hs[|hs| - 1])
  {
    var init, h := hs[..|hs| - 1], hs[|hs| - 1];
    LinesSay(d, init);
    ExistsMore(hs, HasLength);
    if HasLength(h) {
      forall i | 0 <= i < |init| ensures !HasLength(init[i]) {
        assert init[i] == hs[i];
      }
    }
  }

  /** Any list of well-formed lines within the limit is read, handed over line by line, and what the lines say
      adds up. */
  lemma {:induction false} LinesRead<L(!new)>(push: Sink<L>, f: Fields, log: L, hs: seq<Header>) returns (g: Fields, log': L)
    requires Joins(push) && AtLine(f) && AllMayFollow(HeadOf(f), hs) && f.nread + |Lines(hs)| <= MAX_HEADER_SIZE
    ensures AtLine(g) && Carries(f, g, |Lines(hs)|) && HeadOf(g) == HeadAfter(HeadOf(f), hs)
    ensures Flushed(push, g, log') == Fold(push, Flushed(push, f, log), HeadersOf(hs))
    ensures Reads(push, Running(f, log), Lines(hs), g, log')
    decreases |hs|
  {
    if hs == [] {
      g, log' := f, log;
      ReadsNothing(push, f, log);
    } else {
      var init, h := hs[..|hs| - 1], hs[|hs| - 1];
      LastMayFollow(HeadOf(f), hs);
      var g1, log1 := LinesRead(push, f, log, init);
      g, log' := LineRead(push, g1, log1, h);
      ReadsMore(push, Running(f, log), Lines(init), Line(h), g1, log1, g, log');
      FoldTwo(push, Flushed(push, f, log), HeadersOf(init), Data(Field, h.name), Data(Value, h.value));
    }
  }
}
