/** Reading back what was printed: the JSON round trip, and exactly how deep it goes. */
module JsonRoundTrip {
  import opened Options
  import opened Basics
  import opened JsonText

  // ---------------------------------------------------------------- texts inside a text

  lemma TextSplit(s: string, p: nat, a: string, b: string)
    requires TextAt(s, p, a + b)
    ensures TextAt(s, p, a) && TextAt(s, p + |a|, b)
  {
    var t := s[p..p + |a + b|];
    assert s[p..p + |a|] == t[..|a|] && s[p + |a|..p + |a| + |b|] == t[|a|..];
  }

  lemma TextFirst(s: string, p: nat, a: string)
    requires TextAt(s, p, a) && a != ""
    ensures s[p] == a[0]
  {
    assert s[p..p + |a|][0] == s[p];
  }

  // ---------------------------------------------------------------- strings

  lemma EscapedCharScanned(s: string, p: nat, c: char)
    requires Terminated(s) && TextAt(s, p, EscapedChar(c)) && p + |EscapedChar(c)| < |s|
    ensures StringEnd(s, p) == StringEnd(s, p + |EscapedChar(c)|)
  {
    var e := EscapedChar(c);
    if |e| == 6 {
      UnicodeScanned(s, p, c as int);
    } else {
      assert s[p..p + |e|][0] == s[p];
      assert |e| == 2 ==> s[p..p + |e|][1] == s[p + 1] && !Unicode(s[p..]);
    }
  }

  lemma UnicodeScanned(s: string, p: nat, n: nat)
    requires Terminated(s) && n < 32 && TextAt(s, p, "\\u00" + [LowerHex(n / 16), LowerHex(n % 16)]) && p + 6 < |s|
    ensures StringEnd(s, p) == StringEnd(s, p + 6)
  {
    HexPair(n);
    var raw, e := s[p..], "\\u00" + [LowerHex(n / 16), LowerHex(n % 16)];
    assert s[p..p + 6] == raw[..6];
    assert raw[0] == e[0] && raw[1] == e[1] && raw[2] == e[2] && raw[3] == e[3] && raw[4] == e[4] && raw[5] == e[5];
  }

  lemma {:induction false} EscapedScanned(s: string, p: nat, bytes: string)
    requires Terminated(s) && TextAt(s, p, Escaped(bytes)) && p + |Escaped(bytes)| < |s| && s[p + |Escaped(bytes)|] == '"'
    ensures StringEnd(s, p) == Some(p + |Escaped(bytes)|)
    decreases |bytes|
  {
    if bytes != "" {
      var e := FirstEscaped(s, p, bytes);
      EscapedCharScanned(s, p, bytes[0]);
      EscapedScanned(s, p + e, bytes[1..]);
    }
  }

  lemma FirstEscaped(s: string, p: nat, bytes: string) returns (e: nat)
    requires TextAt(s, p, Escaped(bytes)) && bytes != ""
    ensures e == |EscapedChar(bytes[0])| && TextAt(s, p, EscapedChar(bytes[0])) && TextAt(s, p + e, Escaped(bytes[1..]))
    ensures |Escaped(bytes)| == e + |Escaped(bytes[1..])|
  {
    e := |EscapedChar(bytes[0])|;
    TextSplit(s, p, EscapedChar(bytes[0]), Escaped(bytes[1..]));
  }

  lemma QuotedAt(s: string, p: nat, bytes: string)
    requires TextAt(s, p, Quoted(bytes))
    ensures |Quoted(bytes)| == |Escaped(bytes)| + 2 && s[p] == '"' == s[p + 1 + |Escaped(bytes)|] && TextAt(s, p + 1, Escaped(bytes))
  {
    var e := Escaped(bytes);
    TextSplit(s, p, "\"" + e, "\"");
    TextSplit(s, p, "\"", e);
    TextFirst(s, p, "\"");
    TextFirst(s, p + 1 + |e|, "\"");
  }

  lemma QuotedParses(s: string, p: nat, bytes: string)
    requires Terminated(s) && TextAt(s, p, Quoted(bytes)) && p + |Quoted(bytes)| < |s|
    ensures ParseString(s, p) == Some((bytes, p + |Quoted(bytes)|))
  {
    var raw := QuotedSpan(s, p, bytes);
    EscapeRoundTrip(bytes);
    ParsedTo(s, p, p + 1 + |raw|, raw, bytes);
  }

  lemma QuotedSpan(s: string, p: nat, bytes: string) returns (raw: string)
    requires Terminated(s) && TextAt(s, p, Quoted(bytes)) && p + |Quoted(bytes)| < |s|
    ensures raw == Escaped(bytes) && |Quoted(bytes)| == |raw| + 2 && s[p] == '"' && s[p + 1..p + 1 + |raw|] == raw
    ensures StringEnd(s, p + 1) == Some(p + 1 + |raw|)
  {
    raw := Escaped(bytes);
    QuotedAt(s, p, bytes);
    EscapedScanned(s, p + 1, bytes);
  }

  lemma ParsedTo(s: string, p: nat, end: nat, raw: string, bytes: string)
    requires Terminated(s) && p < end < |s| && s[p] == '"' && StringEnd(s, p + 1) == Some(end)
    requires s[p + 1..end] == raw && WellEscaped(raw) && Unescaped(raw) == bytes
    ensures ParseString(s, p) == Some((bytes, end + 1))
  {
  }

  // ---------------------------------------------------------------- numbers

  lemma {:induction false} DigitsShape(n: nat)
    ensures Digits(n) != "" && (forall i | 0 <= i < |Digits(n)| :: Digit(Digits(n)[i]))
    ensures n > 0 ==> Digits(n)[0] != '0'
    ensures n == 0 ==> Digits(n) == "0"
    decreases n
  {
    if n >= 10 {
      DigitsShape(n / 10);
    }
  }

  lemma {:induction false} DigitsScanned(s: string, p: nat, end: nat)
    requires Terminated(s) && p <= end < |s| && (forall i | p <= i < end :: Digit(s[i])) && !NumberChar(s[end])
    ensures NumberEnd(s, p, 3) == Some(end)
    decreases end - p
  {
    if p < end {
      assert NextState(3, s[p]) == 3;
      DigitsScanned(s, p + 1, end);
    }
  }

  lemma NaturalParses(s: string, p: nat, n: nat, state: nat)
    requires Terminated(s) && TextAt(s, p, Digits(n)) && p + |Digits(n)| < |s| && !NumberChar(s[p + |Digits(n)|])
    requires state <= 1
    ensures NumberEnd(s, p, state) == Some(p + |Digits(n)|)
  {
    DigitsShape(n);
    var d := Digits(n);
    assert forall i | 0 <= i < |d| :: s[p + i] == s[p..p + |d|][i] == d[i];
    if n == 0 {
      assert s[p] == '0' && NextState(state, '0') == 2;
    } else {
      assert NextState(state, s[p]) == 3;
      DigitsScanned(s, p + 1, p + |d|);
    }
  }

  lemma IntegerParses(s: string, p: nat, n: int)
    requires Terminated(s) && TextAt(s, p, IntText(n)) && p + |IntText(n)| < |s| && !NumberChar(s[p + |IntText(n)|])
    ensures NumberEnd(s, p, 0) == Some(p + |IntText(n)|)
  {
    if n < 0 {
      TextSplit(s, p, "-", Digits(-n));
      TextFirst(s, p, "-");
      NaturalParses(s, p + 1, -n, 1);
    } else {
      NaturalParses(s, p, n, 0);
    }
  }

  /** `boost::lexical_cast`, on the text of a number. */
  function IntValue(text: string): int
    requires text != "" && text != "-"
  {
    if text[0] == '-' then -Natural(text[1..]) else Natural(text)
  }

  function Natural(d: string): int {
    if d == "" then 0 else Natural(d[..|d| - 1]) * 10 + (d[|d| - 1] as int - '0' as int)
  }

  lemma {:induction false} NaturalBack(n: nat)
    ensures Natural(Digits(n)) == n
    decreases n
  {
    if n >= 10 {
      NaturalBack(n / 10);
      assert Digits(n)[..|Digits(n)| - 1] == Digits(n / 10);
    } else {
      assert Digits(n)[..0] == "";
    }
  }

  /** Integers: reading the text of a number gives the number. */
  lemma IntegerBack(n: int)
    ensures IntText(n) != "" && IntText(n) != "-" && IntValue(IntText(n)) == n
  {
    DigitsShape(if n < 0 then -n else n);
    NaturalBack(if n < 0 then -n else n);
    if n < 0 {
      assert IntText(n)[1..] == Digits(-n);
    } else {
      assert Digit(Digits(n)[0]);
    }
  }

  // ---------------------------------------------------------------- values

  ghost predicate IntegerText(text: string) {
    exists n :: text == IntText(n)
  }

  /** Built from null, booleans, integers, strings, lists and objects. */
  ghost predicate Printable(v: Json) {
    match v
    case Number(text) => IntegerText(text)
    case List(items) => forall i | 0 <= i < |items| :: Printable(items[i])
    case Object(members) => forall i | 0 <= i < |members| :: Printable(members[i].1)
    case _ => true
  }

  /** The parser's test of its depth, which grows by two for each level of nesting. */
  ghost predicate Fits(v: Json, depth: nat) {
    match v
    case List(items) => depth + 1 <= MAX_DEPTH && forall i | 0 <= i < |items| :: Fits(items[i], depth + 2)
    case Object(members) => depth + 1 <= MAX_DEPTH && forall i | 0 <= i < |members| :: Fits(members[i].1, depth + 2)
    case _ => true
  }

  /** Containers are nested at most `n` deep. */
  ghost predicate NestedAtMost(v: Json, n: nat)
    decreases v
  {
    match v
    case List(items) => n > 0 && forall i | 0 <= i < |items| :: NestedAtMost(items[i], n - 1)
    case Object(members) => n > 0 && forall i | 0 <= i < |members| :: NestedAtMost(members[i].1, n - 1)
    case _ => true
  }

  lemma {:induction false} FitsNested(v: Json, k: nat)
    requires k <= 5000
    ensures Fits(v, 2 * k) <==> NestedAtMost(v, 5000 - k)
    decreases v
  {
    if k < 5000 {
      match v
      case List(items) =>
        forall i | 0 <= i < |items| {
          FitsNested(items[i], k + 1);
        }
      case Object(members) =>
        forall i | 0 <= i < |members| {
          FitsNested(members[i].1, k + 1);
        }
      case _ =>
    }
  }

  // ---------------------------------------------------------------- texts with white space

  predicate Blank(c: char) {
    c == ' ' || c == '\t' || c == '\r' || c == '\n'
  }

  /** The tokens of a value, as it is printed. */
  function TokensOf(v: Json): (tokens: seq<string>)
    ensures tokens != []
    decreases v
  {
    match v
    case Null => ["null"]
    case False => ["false"]
    case True => ["true"]
    case Number(text) => [text]
    case String(bytes) => [Quoted(bytes)]
    case List(_) => ["["] + ItemTokens(v, 0)
    case Object(_) => ["{"] + MemberTokens(v, 0)
  }

  function Comma(i: nat): seq<string> {
    if i == 0 then [] else [","]
  }

  function ItemTokens(v: Json, i: nat): seq<string>
    requires v.List? && i <= |v.items|
    decreases v, |v.items| - i
  {
    if i == |v.items| then ["]"] else Comma(i) + (TokensOf(v.items[i]) + ItemTokens(v, i + 1))
  }

  function MemberTokens(v: Json, i: nat): seq<string>
    requires v.Object? && i <= |v.members|
    decreases v, |v.members| - i
  {
    if i == |v.members| then ["}"]
    else Comma(i) + ([Quoted(v.members[i].0), ":"] + (TokensOf(v.members[i].1) + MemberTokens(v, i + 1)))
  }

  /** The tokens with a gap before each of them. */
  function Spread(tokens: seq<string>, gaps: seq<string>): string
    requires |gaps| == |tokens|
  {
    if tokens == [] then "" else gaps[0] + (tokens[0] + Spread(tokens[1..], gaps[1..]))
  }

  predicate IsGap(gap: string) {
    forall i | 0 <= i < |gap| :: Blank(gap[i])
  }

  predicate AreGaps(gaps: seq<string>) {
    forall i | 0 <= i < |gaps| :: IsGap(gaps[i])
  }

  /** Where a gap ends. */
  function AfterGap(s: string, p: nat): (q: nat)
    requires p <= |s|
    ensures p <= q <= |s| && (q < |s| ==> !Blank(s[q]))
    decreases |s| - p
  {
    if p < |s| && Blank(s[p]) then AfterGap(s, p + 1) else p
  }

  lemma {:induction false} GapEnds(s: string, p: nat, q: nat)
    requires p <= q < |s| && (forall i | p <= i < q :: Blank(s[i])) && !Blank(s[q])
    ensures AfterGap(s, p) == q
    decreases q - p
  {
    if p < q {
      GapEnds(s, p + 1, q);
    }
  }

  /** The parser skips the same. */
  lemma {:induction false} SkipsGap(s: string, p: nat)
    requires Terminated(s) && p < |s|
    ensures AfterGap(s, p) < |s| && Skip(s, p) == AfterGap(s, p)
    decreases |s| - p
  {
    if Blank(s[p]) {
      SkipsGap(s, p + 1);
    }
  }

  // ---------------------------------------------------------------- values in a text

  /** The text of `v`, with any white space between its tokens, lies between `p` and `e`. */
  ghost predicate Printed(v: Json, s: string, p: nat, e: nat)
    decreases v
  {
    p < e <= |s| &&
    match v
    case Null => s[p..e] == "null"
    case False => s[p..e] == "false"
    case True => s[p..e] == "true"
    case Number(text) => s[p..e] == text
    case String(bytes) => s[p..e] == Quoted(bytes)
    case List(_) => s[p] == '[' && ItemsPrinted(v, 0, s, p + 1, e)
    case Object(_) => s[p] == '{' && MembersPrinted(v, 0, s, p + 1, e)
  }

  /** The text goes on with this character after a gap. */
  predicate Follows(s: string, q: nat, c: char)
    requires q <= |s|
  {
    AfterGap(s, q) < |s| && s[AfterGap(s, q)] == c
  }

  /** Where part `i` begins: after its comma, unless it is the first. */
  function Start(i: nat, s: string, q: nat): (r: nat)
    requires q <= |s| && (i > 0 ==> Follows(s, q, ','))
    ensures q <= r <= |s|
  {
    if i == 0 then AfterGap(s, q) else AfterGap(s, AfterGap(s, q) + 1)
  }

  ghost predicate ItemsPrinted(v: Json, i: nat, s: string, q: nat, e: nat)
    requires v.List? && i <= |v.items| && q <= e <= |s|
    decreases v, |v.items| - i, 1
  {
    if i == |v.items| then Follows(s, q, ']') && e == AfterGap(s, q) + 1
    else (i == 0 || Follows(s, q, ',')) && exists m: nat :: ItemAt(v, i, s, Start(i, s, q), m, e)
  }

  ghost predicate ItemAt(v: Json, i: nat, s: string, r: nat, m: nat, e: nat)
    requires v.List? && i < |v.items| && e <= |s|
    decreases v, |v.items| - i, 0
  {
    m < e && Printed(v.items[i], s, r, m) && ItemsPrinted(v, i + 1, s, m, e)
  }

  ghost predicate MembersPrinted(v: Json, i: nat, s: string, q: nat, e: nat)
    requires v.Object? && i <= |v.members| && q <= e <= |s|
    decreases v, |v.members| - i, 1
  {
    if i == |v.members| then Follows(s, q, '}') && e == AfterGap(s, q) + 1
    else (i == 0 || Follows(s, q, ',')) && exists m: nat :: MemberAt(v, i, s, Start(i, s, q), m, e)
  }

  ghost predicate MemberAt(v: Json, i: nat, s: string, r: nat, m: nat, e: nat)
    requires v.Object? && i < |v.members| && e <= |s|
    decreases v, |v.members| - i, 0
  {
    m < e && MemberPrinted(v, i, s, r, m) && MembersPrinted(v, i + 1, s, m, e)
  }

  ghost predicate MemberPrinted(v: Json, i: nat, s: string, q: nat, e: nat)
    requires v.Object? && i < |v.members| && e <= |s|
    decreases v, 0
  {
    var n := q + |Quoted(v.members[i].0)|;
    && n < e && s[q..n] == Quoted(v.members[i].0) && Follows(s, n, ':')
    && Printed(v.members[i].1, s, AfterGap(s, AfterGap(s, n) + 1), e)
  }

  lemma NumberNotEmpty(text: string)
    requires IntegerText(text)
    ensures text != "" && (Digit(text[0]) || text[0] == '-')
  {
    var n :| text == IntText(n);
    DigitsShape(if n < 0 then -n else n);
    assert n >= 0 ==> Digit(Digits(n)[0]);
  }

  // ---------------------------------------------------------------- spread tokens in a text

  /** Always true. It stands in front of a fact that is taken apart only where it is mentioned. */
  predicate Look(k: int) {
    true
  }

  /** The tokens, with these gaps, lie between `q` and `e`. */
  ghost predicate SpreadAt(s: string, q: nat, tokens: seq<string>, gaps: seq<string>, e: nat) {
    forall k {:trigger Look(k)} :: Look(k) ==>
      |gaps| == |tokens| && AreGaps(gaps) && TextAt(s, q, Spread(tokens, gaps)) && e == q + |Spread(tokens, gaps)|
  }

  lemma {:induction false} SpreadConcat(a: seq<string>, b: seq<string>, gaps: seq<string>)
    requires |gaps| == |a| + |b|
    ensures Spread(a + b, gaps) == Spread(a, gaps[..|a|]) + Spread(b, gaps[|a|..])
    decreases |a|
  {
    if a == [] {
      assert a + b == b && gaps[0..] == gaps;
    } else {
      SpreadConcat(a[1..], b, gaps[1..]);
      assert (a + b)[1..] == a[1..] + b && gaps[1..][..|a| - 1] == gaps[..|a|][1..] && gaps[1..][|a| - 1..] == gaps[|a|..];
      Grouped(gaps[0], a[0], Spread(a[1..], gaps[..|a|][1..]));
    }
  }

  lemma SpreadSplit(s: string, q: nat, a: seq<string>, b: seq<string>, gaps: seq<string>, e: nat) returns (m: nat)
    requires SpreadAt(s, q, a + b, gaps, e)
    ensures |gaps| == |a| + |b|
    ensures SpreadAt(s, q, a, gaps[..|a|], m) && SpreadAt(s, m, b, gaps[|a|..], e)
  {
    assert Look(0);
    SpreadConcat(a, b, gaps);
    m := q + |Spread(a, gaps[..|a|])|;
    TextSplit(s, q, Spread(a, gaps[..|a|]), Spread(b, gaps[|a|..]));
    assert forall i | 0 <= i < |b| :: gaps[|a|..][i] == gaps[|a| + i];
  }

  /** One token after its gap. */
  lemma SpreadOne(s: string, q: nat, t: string, gaps: seq<string>, e: nat)
    requires SpreadAt(s, q, [t], gaps, e) && t != "" && !Blank(t[0])
    ensures q <= e <= |s| && AfterGap(s, q) + |t| == e && TextAt(s, AfterGap(s, q), t) && s[AfterGap(s, q)] == t[0]
  {
    assert Look(0);
    assert Spread([t], gaps) == gaps[0] + t;
    TextSplit(s, q, gaps[0], t);
    TextFirst(s, q + |gaps[0]|, t);
    assert forall i | q <= i < q + |gaps[0]| :: s[i] == s[q..q + |gaps[0]|][i - q];
    GapEnds(s, q, q + |gaps[0]|);
  }

  lemma CommaPlaced(s: string, q: nat, i: nat, gaps: seq<string>, m: nat)
    requires SpreadAt(s, q, Comma(i), gaps, m)
    ensures q <= m <= |s| && (if i == 0 then m == q else Follows(s, q, ',') && m == AfterGap(s, q) + 1)
  {
    if i == 0 {
      assert Look(0);
    } else {
      SpreadOne(s, q, ",", gaps, m);
    }
  }

  lemma {:induction false} SpreadIsPrinted(v: Json, s: string, q: nat, gaps: seq<string>, e: nat)
    requires Printable(v) && SpreadAt(s, q, TokensOf(v), gaps, e)
    ensures q <= e <= |s| && Printed(v, s, AfterGap(s, q), e)
    decreases v, 1
  {
    match v
    case Null => SpreadOne(s, q, "null", gaps, e);
    case False => SpreadOne(s, q, "false", gaps, e);
    case True => SpreadOne(s, q, "true", gaps, e);
    case Number(text) =>
      NumberNotEmpty(text);
      SpreadOne(s, q, text, gaps, e);
    case String(bytes) =>
      SpreadOne(s, q, Quoted(bytes), gaps, e);
    case List(_) =>
      var m := SpreadSplit(s, q, ["["], ItemTokens(v, 0), gaps, e);
      SpreadOne(s, q, "[", gaps[..1], m);
      ItemsSpread(v, 0, s, m, gaps[1..], e);
    case Object(_) =>
      var m := SpreadSplit(s, q, ["{"], MemberTokens(v, 0), gaps, e);
      SpreadOne(s, q, "{", gaps[..1], m);
      MembersSpread(v, 0, s, m, gaps[1..], e);
  }

  lemma {:induction false} ItemsSpread(v: Json, i: nat, s: string, q: nat, gaps: seq<string>, e: nat)
    requires Printable(v) && v.List? && i <= |v.items| && SpreadAt(s, q, ItemTokens(v, i), gaps, e)
    ensures q < e <= |s| && ItemsPrinted(v, i, s, q, e)
    decreases v, 0, |v.items| - i
  {
    if i == |v.items| {
      SpreadOne(s, q, "]", gaps, e);
    } else {
      var m1, m := ItemSplit(v, i, s, q, gaps, e);
      var k := |Comma(i)|;
      SpreadIsPrinted(v.items[i], s, m1, gaps[k..][..|TokensOf(v.items[i])|], m);
      ItemsSpread(v, i + 1, s, m, gaps[k..][|TokensOf(v.items[i])|..], e);
      ItemsJoin(v, i, s, q, m, e);
    }
  }

  lemma ItemSplit(v: Json, i: nat, s: string, q: nat, gaps: seq<string>, e: nat) returns (m1: nat, m: nat)
    requires v.List? && i < |v.items| && SpreadAt(s, q, ItemTokens(v, i), gaps, e)
    ensures q <= m1 <= |s| && (i == 0 || Follows(s, q, ',')) && Start(i, s, q) == AfterGap(s, m1)
    ensures |Comma(i)| + |TokensOf(v.items[i])| <= |gaps|
    ensures SpreadAt(s, m1, TokensOf(v.items[i]), gaps[|Comma(i)|..][..|TokensOf(v.items[i])|], m)
    ensures SpreadAt(s, m, ItemTokens(v, i + 1), gaps[|Comma(i)|..][|TokensOf(v.items[i])|..], e)
  {
    m1 := SpreadSplit(s, q, Comma(i), TokensOf(v.items[i]) + ItemTokens(v, i + 1), gaps, e);
    CommaPlaced(s, q, i, gaps[..|Comma(i)|], m1);
    m := SpreadSplit(s, m1, TokensOf(v.items[i]), ItemTokens(v, i + 1), gaps[|Comma(i)|..], e);
  }

  lemma ItemsJoin(v: Json, i: nat, s: string, q: nat, m: nat, e: nat)
    requires v.List? && i < |v.items| && q <= e <= |s| && m < e && (i == 0 || Follows(s, q, ','))
    requires Printed(v.items[i], s, Start(i, s, q), m) && ItemsPrinted(v, i + 1, s, m, e)
    ensures ItemsPrinted(v, i, s, q, e)
  {
    assert ItemAt(v, i, s, Start(i, s, q), m, e);
  }

  lemma {:induction false} MembersSpread(v: Json, i: nat, s: string, q: nat, gaps: seq<string>, e: nat)
    requires Printable(v) && v.Object? && i <= |v.members| && SpreadAt(s, q, MemberTokens(v, i), gaps, e)
    ensures q < e <= |s| && MembersPrinted(v, i, s, q, e)
    decreases v, 0, |v.members| - i
  {
    if i == |v.members| {
      SpreadOne(s, q, "}", gaps, e);
    } else {
      var m1, m2, m, vgaps, rest := MemberSplit(v, i, s, q, gaps, e);
      SpreadIsPrinted(v.members[i].1, s, m2, vgaps, m);
      KeyAndValue(v, i, s, Start(i, s, q), m2, m);
      MembersSpread(v, i + 1, s, m, rest, e);
      MembersJoin(v, i, s, q, m, e);
    }
  }

  lemma MemberSplit(v: Json, i: nat, s: string, q: nat, gaps: seq<string>, e: nat)
    returns (m1: nat, m2: nat, m: nat, vgaps: seq<string>, rest: seq<string>)
    requires v.Object? && i < |v.members| && SpreadAt(s, q, MemberTokens(v, i), gaps, e)
    ensures q <= m1 <= |s| && (i == 0 || Follows(s, q, ',')) && Start(i, s, q) == AfterGap(s, m1)
    ensures KeyAt(s, AfterGap(s, m1), Quoted(v.members[i].0), m2)
    ensures SpreadAt(s, m2, TokensOf(v.members[i].1), vgaps, m) && SpreadAt(s, m, MemberTokens(v, i + 1), rest, e)
  {
    var key, value, more := Quoted(v.members[i].0), TokensOf(v.members[i].1), MemberTokens(v, i + 1);
    m1 := SpreadSplit(s, q, Comma(i), [key, ":"] + (value + more), gaps, e);
    CommaPlaced(s, q, i, gaps[..|Comma(i)|], m1);
    var gaps1 := gaps[|Comma(i)|..];
    m2 := SpreadSplit(s, m1, [key, ":"], value + more, gaps1, e);
    KeySpread(s, m1, key, gaps1[..2], m2);
    m := SpreadSplit(s, m2, value, more, gaps1[2..], e);
    vgaps, rest := gaps1[2..][..|value|], gaps1[2..][|value|..];
  }

  /** The key lies at `q`, and its colon ends at `m`. */
  predicate KeyAt(s: string, q: nat, key: string, m: nat) {
    && q + |key| < m <= |s| && s[q..q + |key|] == key && Follows(s, q + |key|, ':') && m == AfterGap(s, q + |key|) + 1
  }

  lemma KeySpread(s: string, q: nat, key: string, gaps: seq<string>, m: nat)
    requires SpreadAt(s, q, [key, ":"], gaps, m) && key != "" && key[0] == '"'
    ensures q <= |s| && KeyAt(s, AfterGap(s, q), key, m)
  {
    assert [key, ":"] == [key] + [":"];
    var k := SpreadSplit(s, q, [key], [":"], gaps, m);
    SpreadOne(s, q, key, gaps[..1], k);
    SpreadOne(s, k, ":", gaps[1..], m);
  }

  lemma KeyAndValue(v: Json, i: nat, s: string, r: nat, m2: nat, m: nat)
    requires v.Object? && i < |v.members| && r <= |s| && m2 <= m <= |s| && KeyAt(s, r, Quoted(v.members[i].0), m2)
    requires Printed(v.members[i].1, s, AfterGap(s, m2), m)
    ensures MemberPrinted(v, i, s, r, m)
  {
  }

  lemma MembersJoin(v: Json, i: nat, s: string, q: nat, m: nat, e: nat)
    requires v.Object? && i < |v.members| && q <= e <= |s| && m < e && (i == 0 || Follows(s, q, ','))
    requires MemberPrinted(v, i, s, Start(i, s, q), m) && MembersPrinted(v, i + 1, s, m, e)
    ensures MembersPrinted(v, i, s, q, e)
  {
    assert MemberAt(v, i, s, Start(i, s, q), m, e);
  }

  // ---------------------------------------------------------------- reading back

  predicate StartsValue(c: char) {
    Digit(c) || c == '-' || c == '"' || c == '[' || c == '{' || c == 'n' || c == 't' || c == 'f'
  }

  lemma PrintedStarts(v: Json, s: string, p: nat, e: nat)
    requires Printable(v) && Printed(v, s, p, e)
    ensures StartsValue(s[p])
  {
    if !v.List? && !v.Object? {
      assert s[p] == s[p..e][0];
    }
    if v.Number? {
      NumberNotEmpty(v.text);
    }
  }

  /** A value is read back where it was printed, if its depth is within the limit, and not at all if not. */
  lemma {:induction false} PrintedParses(v: Json, s: string, p: nat, e: nat, depth: nat)
    requires Printable(v) && Terminated(s) && Printed(v, s, p, e) && e < |s| && !NumberChar(s[e])
    ensures ParseValue(s, p, depth) == if Fits(v, depth) then Some((v, e)) else None
    decreases v
  {
    match v
    case Number(text) => NumberParses(text, s, p, e, depth);
    case String(bytes) => StringParses(bytes, s, p, e, depth);
    case List(_) =>
      if depth + 1 <= MAX_DEPTH {
        ListParses(v, s, p, e, depth + 1);
      }
    case Object(_) =>
      if depth + 1 <= MAX_DEPTH {
        ObjectParses(v, s, p, e, depth + 1);
      }
    case _ => assert s[p] == s[p..e][0];
  }

  lemma StringParses(bytes: string, s: string, p: nat, e: nat, depth: nat)
    requires Terminated(s) && p < e < |s| && s[p..e] == Quoted(bytes)
    ensures ParseValue(s, p, depth) == Some((String(bytes), e))
  {
    QuotedParses(s, p, bytes);
    assert s[p] == s[p..e][0];
  }

  lemma NumberParses(text: string, s: string, p: nat, e: nat, depth: nat)
    requires IntegerText(text) && Terminated(s) && p < e < |s| && s[p..e] == text && !NumberChar(s[e])
    ensures ParseValue(s, p, depth) == Some((Number(text), e))
  {
    NumberScanned(text, s, p, e);
    NumberNotEmpty(text);
    TextFirst(s, p, text);
    NumberValue(s, p, e, depth);
  }

  lemma NumberScanned(text: string, s: string, p: nat, e: nat)
    requires IntegerText(text) && Terminated(s) && p < e < |s| && s[p..e] == text && !NumberChar(s[e])
    ensures NumberEnd(s, p, 0) == Some(e)
  {
    var n :| text == IntText(n);
    assert p + |text| == e;
    IntegerParses(s, p, n);
  }

  lemma NumberValue(s: string, p: nat, e: nat, depth: nat)
    requires Terminated(s) && p < e < |s| && (Digit(s[p]) || s[p] == '-') && NumberEnd(s, p, 0) == Some(e)
    ensures ParseValue(s, p, depth) == Some((Number(s[p..e]), e))
  {
  }

  ghost predicate ItemsFit(v: Json, i: nat, depth: nat)
    requires v.List?
  {
    forall j | i <= j < |v.items| :: Fits(v.items[j], depth)
  }

  ghost predicate MembersFit(v: Json, i: nat, depth: nat)
    requires v.Object?
  {
    forall j | i <= j < |v.members| :: Fits(v.members[j].1, depth)
  }

  /** In front of `c` with a gap, no number goes on. */
  lemma NumberStops(s: string, m: nat, c: char)
    requires m <= |s| && Follows(s, m, c) && (c == ',' || c == ']' || c == '}' || c == '\0')
    ensures m < |s| && !NumberChar(s[m])
  {
  }

  lemma {:induction false} ListParses(v: Json, s: string, p: nat, e: nat, depth: nat)
    requires Printable(v) && v.List? && Terminated(s) && Printed(v, s, p, e) && e < |s| && depth <= MAX_DEPTH
    ensures ParseList(s, p, depth) == if ItemsFit(v, 0, depth + 1) then Some((v, e)) else None
    decreases v, |v.items| + 1
  {
    SkipsGap(s, p + 1);
    if v.items != [] {
      ItemsParse(v, 0, s, p + 1, e, depth);
      var m := ItemFound(v, 0, s, p + 1, e);
      assert v.items[..0] == [];
    }
  }

  /** Where an item ends, and how the text goes on there. */
  lemma ItemFound(v: Json, i: nat, s: string, q: nat, e: nat) returns (m: nat)
    requires Printable(v) && v.List? && i < |v.items| && q <= e <= |s| && ItemsPrinted(v, i, s, q, e)
    ensures (i > 0 ==> Follows(s, q, ',')) && Start(i, s, q) < m < e
    ensures Printed(v.items[i], s, Start(i, s, q), m) && ItemsPrinted(v, i + 1, s, m, e)
    ensures if i + 1 == |v.items| then Follows(s, m, ']') && e == AfterGap(s, m) + 1 else Follows(s, m, ',') && Start(i + 1, s, m) < e
    ensures StartsValue(s[Start(i, s, q)])
  {
    m := ItemEnd(v, i, s, q, e);
    if i + 1 < |v.items| {
      var m' := ItemEnd(v, i + 1, s, m, e);
    }
  }

  lemma ItemEnd(v: Json, i: nat, s: string, q: nat, e: nat) returns (m: nat)
    requires Printable(v) && v.List? && i < |v.items| && q <= e <= |s| && ItemsPrinted(v, i, s, q, e)
    ensures (i > 0 ==> Follows(s, q, ',')) && Start(i, s, q) < m < e
    ensures Printed(v.items[i], s, Start(i, s, q), m) && ItemsPrinted(v, i + 1, s, m, e)
    ensures StartsValue(s[Start(i, s, q)])
  {
    m :| ItemAt(v, i, s, Start(i, s, q), m, e);
    PrintedStarts(v.items[i], s, Start(i, s, q), m);
  }

  /** One turn of the loop of `decode_list`. */
  lemma OneItem(s: string, p: nat, m: nat, depth: nat, before: seq<Json>, item: Json, fits: bool)
    requires Terminated(s) && p < m < |s| && (Follows(s, m, ']') || (Follows(s, m, ',') && AfterGap(s, AfterGap(s, m) + 1) < |s|))
    requires ParseValue(s, p, depth + 1) == if fits then Some((item, m)) else None
    ensures ParseItems(s, p, depth, before) ==
            if !fits then None
            else if s[AfterGap(s, m)] == ']' then Some((List(before + [item]), AfterGap(s, m) + 1))
            else ParseItems(s, AfterGap(s, AfterGap(s, m) + 1), depth, before + [item])
  {
    SkipsGap(s, m);
    if Follows(s, m, ',') {
      SkipsGap(s, AfterGap(s, m) + 1);
    }
  }

  lemma ItemsFitFrom(v: Json, i: nat, depth: nat)
    requires v.List? && i < |v.items|
    ensures ItemsFit(v, i, depth) <==> Fits(v.items[i], depth) && ItemsFit(v, i + 1, depth)
  {
  }

  lemma {:induction false} ItemsParse(v: Json, i: nat, s: string, q: nat, e: nat, depth: nat)
    requires Printable(v) && v.List? && i < |v.items| && Terminated(s) && q <= e < |s| && ItemsPrinted(v, i, s, q, e)
    ensures (i > 0 ==> Follows(s, q, ',')) && Start(i, s, q) < |s|
    ensures ParseItems(s, Start(i, s, q), depth, v.items[..i]) == if ItemsFit(v, i, depth + 1) then Some((v, e)) else None
    decreases v, |v.items| - i
  {
    var m := ItemFound(v, i, s, q, e);
    NumberStops(s, m, if i + 1 == |v.items| then ']' else ',');
    PrintedParses(v.items[i], s, Start(i, s, q), m, depth + 1);
    OneItem(s, Start(i, s, q), m, depth, v.items[..i], v.items[i], Fits(v.items[i], depth + 1));
    ItemsFitFrom(v, i, depth + 1);
    assert v.items[..i] + [v.items[i]] == v.items[..i + 1];
    if i + 1 == |v.items| {
      assert v.items[..i + 1] == v.items;
    } else {
      ItemsParse(v, i + 1, s, m, e, depth);
    }
  }

  lemma {:induction false} ObjectParses(v: Json, s: string, p: nat, e: nat, depth: nat)
    requires Printable(v) && v.Object? && Terminated(s) && Printed(v, s, p, e) && e < |s| && depth <= MAX_DEPTH
    ensures ParseObject(s, p, depth) == if MembersFit(v, 0, depth + 1) then Some((v, e)) else None
    decreases v, |v.members| + 1
  {
    SkipsGap(s, p + 1);
    if v.members != [] {
      MembersParse(v, 0, s, p + 1, e, depth);
      var m := MemberFound(v, 0, s, p + 1, e);
      assert v.members[..0] == [];
    }
  }

  lemma MemberStarts(v: Json, i: nat, s: string, q: nat, e: nat)
    requires v.Object? && i < |v.members| && e <= |s| && MemberPrinted(v, i, s, q, e)
    ensures q < e && s[q] == '"'
  {
    assert s[q] == s[q..q + |Quoted(v.members[i].0)|][0];
  }

  lemma MemberFound(v: Json, i: nat, s: string, q: nat, e: nat) returns (m: nat)
    requires v.Object? && i < |v.members| && q <= e <= |s| && MembersPrinted(v, i, s, q, e)
    ensures (i > 0 ==> Follows(s, q, ',')) && Start(i, s, q) < m < e
    ensures MemberPrinted(v, i, s, Start(i, s, q), m) && MembersPrinted(v, i + 1, s, m, e)
    ensures if i + 1 == |v.members| then Follows(s, m, '}') && e == AfterGap(s, m) + 1 else Follows(s, m, ',') && Start(i + 1, s, m) < e
    ensures s[Start(i, s, q)] == '"'
  {
    m := MemberEnd(v, i, s, q, e);
    if i + 1 < |v.members| {
      var m' := MemberEnd(v, i + 1, s, m, e);
    }
  }

  lemma MemberEnd(v: Json, i: nat, s: string, q: nat, e: nat) returns (m: nat)
    requires v.Object? && i < |v.members| && q <= e <= |s| && MembersPrinted(v, i, s, q, e)
    ensures (i > 0 ==> Follows(s, q, ',')) && Start(i, s, q) < m < e
    ensures MemberPrinted(v, i, s, Start(i, s, q), m) && MembersPrinted(v, i + 1, s, m, e)
    ensures s[Start(i, s, q)] == '"'
  {
    m :| MemberAt(v, i, s, Start(i, s, q), m, e);
    MemberStarts(v, i, s, Start(i, s, q), m);
  }

  /** One turn of the loop of `decode_object`. */
  lemma OneMember(s: string, p: nat, m: nat, depth: nat, before: seq<(string, Json)>, member: (string, Json), fits: bool)
    requires Terminated(s) && p < m < |s| && (Follows(s, m, '}') || (Follows(s, m, ',') && AfterGap(s, AfterGap(s, m) + 1) < |s|))
    requires ParseMember(s, p, depth) == if fits then Some((member, m)) else None
    ensures ParseMembers(s, p, depth, before) ==
            if !fits then None
            else if s[AfterGap(s, m)] == '}' then Some((Object(before + [member]), AfterGap(s, m) + 1))
            else ParseMembers(s, AfterGap(s, AfterGap(s, m) + 1), depth, before + [member])
  {
    SkipsGap(s, m);
    if Follows(s, m, ',') {
      SkipsGap(s, AfterGap(s, m) + 1);
    }
  }

  lemma MembersFitFrom(v: Json, i: nat, depth: nat)
    requires v.Object? && i < |v.members|
    ensures MembersFit(v, i, depth) <==> Fits(v.members[i].1, depth) && MembersFit(v, i + 1, depth)
  {
  }

  lemma {:induction false} MembersParse(v: Json, i: nat, s: string, q: nat, e: nat, depth: nat)
    requires Printable(v) && v.Object? && i < |v.members| && Terminated(s) && q <= e < |s| && MembersPrinted(v, i, s, q, e)
    ensures (i > 0 ==> Follows(s, q, ',')) && Start(i, s, q) < |s|
    ensures ParseMembers(s, Start(i, s, q), depth, v.members[..i]) == if MembersFit(v, i, depth + 1) then Some((v, e)) else None
    decreases v, |v.members| - i
  {
    var m := MemberFound(v, i, s, q, e);
    NumberStops(s, m, if i + 1 == |v.members| then '}' else ',');
    MemberParses(v, i, s, Start(i, s, q), m, depth);
    OneMember(s, Start(i, s, q), m, depth, v.members[..i], v.members[i], Fits(v.members[i].1, depth + 1));
    MembersFitFrom(v, i, depth + 1);
    assert v.members[..i] + [v.members[i]] == v.members[..i + 1];
    if i + 1 == |v.members| {
      assert v.members[..i + 1] == v.members;
    } else {
      MembersParse(v, i + 1, s, m, e, depth);
    }
  }

  lemma {:induction false} MemberParses(v: Json, i: nat, s: string, q: nat, e: nat, depth: nat)
    requires Printable(v) && v.Object? && i < |v.members| && Terminated(s)
    requires e < |s| && MemberPrinted(v, i, s, q, e) && !NumberChar(s[e])
    ensures ParseMember(s, q, depth) == if Fits(v.members[i].1, depth + 1) then Some((v.members[i], e)) else None
    decreases v, 0
  {
    var (key, value) := v.members[i];
    var n, p := KeyParses(v, i, s, q, e);
    PrintedParses(value, s, p, e, depth + 1);
    ValueParsed(s, q, key, value, n, p, e, depth, Fits(value, depth + 1));
  }

  /** The key ends at `n`, and the value begins at `p`. */
  lemma KeyParses(v: Json, i: nat, s: string, q: nat, e: nat) returns (n: nat, p: nat)
    requires Printable(v) && v.Object? && i < |v.members| && Terminated(s) && e < |s| && MemberPrinted(v, i, s, q, e)
    ensures q < n < p < e && ParseString(s, q) == Some((v.members[i].0, n)) && Follows(s, n, ':') && p == AfterGap(s, AfterGap(s, n) + 1)
    ensures Printed(v.members[i].1, s, p, e)
  {
    n := q + |Quoted(v.members[i].0)|;
    p := AfterGap(s, AfterGap(s, n) + 1);
    QuotedParses(s, q, v.members[i].0);
  }

  lemma ValueParsed(s: string, q: nat, key: string, value: Json, n: nat, p: nat, e: nat, depth: nat, fits: bool)
    requires Terminated(s) && q < n < p < |s| && Follows(s, n, ':') && p == AfterGap(s, AfterGap(s, n) + 1)
    requires ParseString(s, q) == Some((key, n)) && ParseValue(s, p, depth + 1) == if fits then Some((value, e)) else None
    ensures ParseMember(s, q, depth) == if fits then Some(((key, value), e)) else None
  {
    SkipsGap(s, n);
    SkipsGap(s, AfterGap(s, n) + 1);
  }

  // ---------------------------------------------------------------- the round trip

  /** Reading, with any white space. For every value and every way of putting spaces, tabs, carriage returns and
      line feeds before and after the tokens of its printed form, the text is read as the value if containers are
      nested at most 5000 deep (depth grows by two per level against a limit of 10000), and not at all if not. */
  lemma SpacedRoundTrip(v: Json, gaps: seq<string>, last: string)
    requires Printable(v) && |gaps| == |TokensOf(v)|
    requires forall i, j | 0 <= i < |gaps| && 0 <= j < |gaps[i]| ::
               gaps[i][j] == ' ' || gaps[i][j] == '\t' || gaps[i][j] == '\r' || gaps[i][j] == '\n'
    requires forall j | 0 <= j < |last| :: last[j] == ' ' || last[j] == '\t' || last[j] == '\r' || last[j] == '\n'
    ensures Parse(Spread(TokensOf(v), gaps) + last + "\0") == if NestedAtMost(v, 5000) then Some(v) else None
  {
    var text := Spread(TokensOf(v), gaps);
    var s, e := text + last + "\0", |text|;
    assert s[0..e] == text && AreGaps(gaps) && IsGap(last);
    assert SpreadAt(s, 0, TokensOf(v), gaps, e);
    SpreadIsPrinted(v, s, 0, gaps, e);
    WholeText(v, s, e, last);
  }

  lemma WholeText(v: Json, s: string, e: nat, last: string)
    requires Printable(v) && e < |s| && s[e..] == last + "\0" && IsGap(last) && Printed(v, s, AfterGap(s, 0), e)
    ensures Terminated(s) && Parse(s) == if NestedAtMost(v, 5000) then Some(v) else None
  {
    assert forall i | e <= i < |s| :: s[i] == s[e..][i - e];
    GapEnds(s, e, |s| - 1);
    SkipsGap(s, 0);
    SkipsGap(s, e);
    NumberStops(s, e, '\0');
    PrintedParses(v, s, AfterGap(s, 0), e, 0);
    FitsNested(v, 0);
  }

  function NoGaps(n: nat): (gaps: seq<string>)
    ensures |gaps| == n && forall i | 0 <= i < n :: gaps[i] == ""
  {
    seq(n, _ => "")
  }

  lemma {:induction false} PlainConcat(a: seq<string>, b: seq<string>)
    ensures Spread(a + b, NoGaps(|a + b|)) == Spread(a, NoGaps(|a|)) + Spread(b, NoGaps(|b|))
  {
    var gaps := NoGaps(|a + b|);
    SpreadConcat(a, b, gaps);
    assert gaps[..|a|] == NoGaps(|a|) && gaps[|a|..] == NoGaps(|b|);
  }

  function Plain(tokens: seq<string>): string {
    Spread(tokens, NoGaps(|tokens|))
  }

  lemma PlainOne(t: string)
    ensures Plain([t]) == t
  {
    assert [t][1..] == [] && NoGaps(1)[1..] == [] && Spread([], []) == "";
    assert "" + (t + "") == t;
  }

  /** Without gaps the tokens are the printed form. */
  lemma {:induction false} PlainIsDump(v: Json)
    ensures Plain(TokensOf(v)) == Dump(v)
    decreases v, 1
  {
    match v
    case Null => PlainOne("null");
    case False => PlainOne("false");
    case True => PlainOne("true");
    case Number(text) => PlainOne(text);
    case String(bytes) => PlainOne(Quoted(bytes));
    case List(_) =>
      PlainOne("[");
      PlainConcat(["["], ItemTokens(v, 0));
      PlainItems(v, 0);
    case Object(_) =>
      PlainOne("{");
      PlainConcat(["{"], MemberTokens(v, 0));
      PlainMembers(v, 0);
  }

  lemma PlainComma(i: nat)
    ensures Plain(Comma(i)) == if i == 0 then "" else ","
  {
    if i > 0 {
      PlainOne(",");
    }
  }

  lemma {:induction false} PlainItems(v: Json, i: nat)
    requires v.List? && i <= |v.items|
    ensures Plain(ItemTokens(v, i)) == DumpItems(v, i)
    decreases v, 0, |v.items| - i
  {
    if i == |v.items| {
      PlainOne("]");
    } else {
      PlainIsDump(v.items[i]);
      PlainItems(v, i + 1);
      PlainComma(i);
      PlainConcat(TokensOf(v.items[i]), ItemTokens(v, i + 1));
      PlainConcat(Comma(i), TokensOf(v.items[i]) + ItemTokens(v, i + 1));
      Grouped(Plain(Comma(i)), Dump(v.items[i]), DumpItems(v, i + 1));
    }
  }

  lemma {:induction false} PlainMembers(v: Json, i: nat)
    requires v.Object? && i <= |v.members|
    ensures Plain(MemberTokens(v, i)) == DumpMembers(v, i)
    decreases v, 0, |v.members| - i
  {
    if i == |v.members| {
      PlainOne("}");
    } else {
      PlainIsDump(v.members[i].1);
      PlainMembers(v, i + 1);
      PlainComma(i);
      PlainMember(Comma(i), Quoted(v.members[i].0), TokensOf(v.members[i].1), MemberTokens(v, i + 1));
    }
  }

  lemma PlainMember(comma: seq<string>, key: string, value: seq<string>, rest: seq<string>)
    ensures Plain(comma + ([key, ":"] + (value + rest))) == Plain(comma) + key + ":" + Plain(value) + Plain(rest)
  {
    PlainConcat(comma, [key, ":"] + (value + rest));
    PlainConcat([key, ":"], value + rest);
    PlainConcat(value, rest);
    PlainConcat([key], [":"]);
    assert [key] + [":"] == [key, ":"];
    PlainOne(key);
    PlainOne(":");
    assert Plain(comma) + ((key + ":") + (Plain(value) + Plain(rest))) == Plain(comma) + key + ":" + Plain(value) + Plain(rest);
  }

  /** The round trip: what was printed is read back, if it is not nested too deeply. */
  lemma RoundTrip(v: Json)
    requires Printable(v)
    ensures Parse(Dump(v) + "\0") == if NestedAtMost(v, 5000) then Some(v) else None
  {
    SpacedRoundTrip(v, NoGaps(|TokensOf(v)|), "");
    PlainIsDump(v);
    assert Dump(v) + "" == Dump(v);
  }
}
