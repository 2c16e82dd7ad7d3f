/** What a pattern stands for and what it takes from a URL, without the order in which the router goes about it:
    a pattern is a text with tags in it, and it matches a URL that can be cut into one piece for each token. */
module RoutingCuts {
  import opened Options
  import opened RoutingPatterns

  // ---------------------------------------------------------------- cuts

  /** The characters from `a` to `b` are what the token stands for. */
  ghost predicate PieceFits(n: Numbers, t: Token, url: string, a: nat, b: nat)
    requires a < b <= |url|
  {
    match t
    case Lit(c) => url[a..b] == [c]
    case Par(STRING) => '/' !in url[a..b] && (b == |url| || url[b] == '/')
    case Par(PATH) => b == |url|
    case Par(INT) => url[a] in "0123456789+-" && n.strtoll(url, a).Some? && n.strtoll(url, a).value.1 == b
    case Par(UINT) => url[a] in "0123456789+" && n.strtoull(url, a).Some? && n.strtoull(url, a).value.1 == b
    case Par(DOUBLE) => url[a] in "0123456789+-." && n.strtod(url, a).Some? && n.strtod(url, a).value.1 == b
  }

  /** `at` cuts the URL, from its first place to the end, into one piece that is not empty for each token. */
  ghost predicate IsCut(n: Numbers, tokens: seq<Token>, url: string, at: seq<nat>) {
    && |at| == |tokens| + 1 && at[|tokens|] == |url|
    && forall i | 0 <= i < |tokens| :: PieceAt(n, tokens, url, at, i)
  }

  ghost predicate PieceAt(n: Numbers, tokens: seq<Token>, url: string, at: seq<nat>, i: nat)
    requires i < |tokens| && |at| == |tokens| + 1
  {
    at[i] < at[i + 1] <= |url| && PieceFits(n, tokens[i], url, at[i], at[i + 1])
  }

  function Piece(url: string, a: nat, b: nat): string {
    if a <= b <= |url| then url[a..b] else ""
  }

  /** The pieces for text, from left to right. */
  function Strings(tokens: seq<Token>, url: string, at: seq<nat>): seq<string>
    requires |at| == |tokens| + 1
  {
    if tokens == [] then []
    else
      (if tokens[0] == Par(STRING) || tokens[0] == Par(PATH) then [Piece(url, at[0], at[1])] else [])
      + Strings(tokens[1..], url, at[1..])
  }

  /** The numbers at the pieces for numbers of a kind, from left to right. */
  function Ints(n: Numbers, tokens: seq<Token>, url: string, at: seq<nat>): seq<int>
    requires |at| == |tokens| + 1
  {
    if tokens == [] then []
    else
      (if tokens[0] == Par(INT) && n.strtoll(url, at[0]).Some? then [n.strtoll(url, at[0]).value.0] else [])
      + Ints(n, tokens[1..], url, at[1..])
  }

  function Uints(n: Numbers, tokens: seq<Token>, url: string, at: seq<nat>): seq<nat>
    requires |at| == |tokens| + 1
  {
    if tokens == [] then []
    else
      (if tokens[0] == Par(UINT) && n.strtoull(url, at[0]).Some? then [n.strtoull(url, at[0]).value.0] else [])
      + Uints(n, tokens[1..], url, at[1..])
  }

  function Doubles(n: Numbers, tokens: seq<Token>, url: string, at: seq<nat>): seq<real>
    requires |at| == |tokens| + 1
  {
    if tokens == [] then []
    else
      (if tokens[0] == Par(DOUBLE) && n.strtod(url, at[0]).Some? then [n.strtod(url, at[0]).value.0] else [])
      + Doubles(n, tokens[1..], url, at[1..])
  }

  ghost function ParamsOf(n: Numbers, tokens: seq<Token>, url: string, at: seq<nat>): Params
    requires IsCut(n, tokens, url, at)
  {
    Params(Ints(n, tokens, url, at), Uints(n, tokens, url, at), Doubles(n, tokens, url, at), Strings(tokens, url, at))
  }

  function Joined(a: Params, b: Params): Params {
    Params(a.ints + b.ints, a.uints + b.uints, a.doubles + b.doubles, a.strings + b.strings)
  }

  // ---------------------------------------------------------------- one token

  /** What one piece gives. */
  ghost function Given(n: Numbers, t: Token, url: string, a: nat, b: nat): Params
    requires a < b <= |url| && PieceFits(n, t, url, a, b)
  {
    match t
    case Lit(_) => NO_PARAMS
    case Par(INT) => NO_PARAMS.(ints := [n.strtoll(url, a).value.0])
    case Par(UINT) => NO_PARAMS.(uints := [n.strtoull(url, a).value.0])
    case Par(DOUBLE) => NO_PARAMS.(doubles := [n.strtod(url, a).value.0])
    case Par(_) => NO_PARAMS.(strings := [url[a..b]])
  }

  lemma SegmentIs(url: string, a: nat, b: nat)
    requires a < b <= |url|
    ensures b == SegmentEnd(url, a) <==> '/' !in url[a..b] && (b == |url| || url[b] == '/')
  {
    var end := SegmentEnd(url, a);
    assert forall i | a <= i < b :: url[i] == url[a..b][i - a];
    if '/' !in url[a..b] {
      assert forall i | a <= i < b :: url[i] != '/';
    }
  }

  lemma SignIs(c: char)
    ensures c in "0123456789" <==> Digit(c)
    ensures c in "0123456789+" <==> Digit(c) || c == '+'
    ensures c in "0123456789+-" <==> Digit(c) || c == '+' || c == '-'
    ensures c in "0123456789+-." <==> Digit(c) || c == '+' || c == '-' || c == '.'
  {
  }

  /** A token takes a piece that fits, and gives what the piece gives. */
  lemma TakesPiece(n: Numbers, t: Token, url: string, a: nat, b: nat, ps: Params)
    requires a < b <= |url| && PieceFits(n, t, url, a, b)
    ensures Take(n, t, url, a, ps) == Some(Taken(Joined(ps, Given(n, t, url, a, b)), b))
  {
    SignIs(url[a]);
    SegmentIs(url, a, b);
    JoinNothing(ps);
    match t
    case Lit(c) => assert url[a..b][0] == url[a];
    case Par(p) => assert b == |url| ==> url[a..b] == url[a..];
  }

  lemma PieceTaken(n: Numbers, t: Token, url: string, a: nat, ps: Params)
    requires a < |url| && Take(n, t, url, a, ps).Some?
    ensures PieceFits(n, t, url, a, Take(n, t, url, a, ps).value.end)
  {
    SignIs(url[a]);
    SegmentIs(url, a, Take(n, t, url, a, ps).value.end);
  }

  lemma JoinNothing(ps: Params)
    ensures ps.ints + [] == ps.ints && ps.uints + [] == ps.uints && ps.doubles + [] == ps.doubles && ps.strings + [] == ps.strings
  {
  }

  lemma JoinMore(a: Params, b: Params, c: Params)
    ensures Joined(Joined(a, b), c) == Joined(a, Joined(b, c))
  {
  }

  // ---------------------------------------------------------------- whole patterns

  lemma CutRest(n: Numbers, tokens: seq<Token>, url: string, at: seq<nat>)
    requires tokens != [] && IsCut(n, tokens, url, at)
    ensures IsCut(n, tokens[1..], url, at[1..]) && PieceAt(n, tokens, url, at, 0)
    ensures ParamsOf(n, tokens, url, at) == Joined(Given(n, tokens[0], url, at[0], at[1]), ParamsOf(n, tokens[1..], url, at[1..]))
  {
    assert PieceAt(n, tokens, url, at, 0);
    forall i | 0 <= i < |tokens[1..]| ensures PieceAt(n, tokens[1..], url, at[1..], i) {
      assert PieceAt(n, tokens, url, at, i + 1);
    }
  }

  /** Any cut is found, and gives the parameters of its pieces from left to right. */
  lemma {:induction false} CutMatches(n: Numbers, tokens: seq<Token>, url: string, at: seq<nat>, ps: Params)
    requires IsCut(n, tokens, url, at)
    ensures at[0] <= |url| && Match(n, tokens, url, at[0], ps) == Some(Joined(ps, ParamsOf(n, tokens, url, at)))
    decreases |tokens|
  {
    if tokens == [] {
      JoinNothing(ps);
    } else {
      CutRest(n, tokens, url, at);
      var given := Given(n, tokens[0], url, at[0], at[1]);
      TakesPiece(n, tokens[0], url, at[0], at[1], ps);
      CutMatches(n, tokens[1..], url, at[1..], Joined(ps, given));
      JoinMore(ps, given, ParamsOf(n, tokens[1..], url, at[1..]));
    }
  }

  /** What is matched has a cut. */
  lemma {:induction false} MatchHasCut(n: Numbers, tokens: seq<Token>, url: string, pos: nat, ps: Params) returns (at: seq<nat>)
    requires pos <= |url| && Match(n, tokens, url, pos, ps).Some?
    ensures IsCut(n, tokens, url, at) && at[0] == pos
    decreases |tokens|
  {
    if tokens == [] {
      at := [pos];
    } else {
      var taken := Take(n, tokens[0], url, pos, ps).value;
      PieceTaken(n, tokens[0], url, pos, ps);
      var rest := MatchHasCut(n, tokens[1..], url, taken.end, taken.params);
      at := [pos] + rest;
      CutLonger(n, tokens, url, at);
    }
  }

  lemma CutLonger(n: Numbers, tokens: seq<Token>, url: string, at: seq<nat>)
    requires tokens != [] && |at| == |tokens| + 1 && IsCut(n, tokens[1..], url, at[1..]) && PieceAt(n, tokens, url, at, 0)
    ensures IsCut(n, tokens, url, at)
  {
    forall i | 0 <= i < |tokens| ensures PieceAt(n, tokens, url, at, i) {
      if i > 0 {
        assert PieceAt(n, tokens[1..], url, at[1..], i - 1);
      }
    }
  }

  /** A pattern matches a URL with these parameters if and only if they are those of a cut of the whole URL. */
  lemma MatchIsCut(n: Numbers, tokens: seq<Token>, url: string, ps: Params)
    ensures Match(n, tokens, url, 0, NO_PARAMS) == Some(ps)
            <==> exists at :: IsCut(n, tokens, url, at) && at[0] == 0 && ps == ParamsOf(n, tokens, url, at)
  {
    if Match(n, tokens, url, 0, NO_PARAMS).Some? {
      var at := MatchHasCut(n, tokens, url, 0, NO_PARAMS);
      CutMatches(n, tokens, url, at, NO_PARAMS);
      NothingJoined(ParamsOf(n, tokens, url, at));
    }
    forall at | IsCut(n, tokens, url, at) && at[0] == 0
      ensures Match(n, tokens, url, 0, NO_PARAMS) == Some(ParamsOf(n, tokens, url, at))
    {
      CutMatches(n, tokens, url, at, NO_PARAMS);
      NothingJoined(ParamsOf(n, tokens, url, at));
    }
  }

  lemma NothingJoined(ps: Params)
    ensures Joined(NO_PARAMS, ps) == ps
  {
  }

  // ---------------------------------------------------------------- selection

  /** The rule with this index has a cut of the URL with these parameters. */
  ghost predicate CutBy(n: Numbers, r: Rule, url: string, at: seq<nat>, found: nat, params: Params) {
    r.1 == found && IsCut(n, r.0, url, at) && at[0] == 0 && params == ParamsOf(n, r.0, url, at)
  }

  /** What is selected, in terms of cuts: the smallest index whose pattern has one, with the parameters of that
      cut, and 0 if and only if no pattern has one. */
  lemma SelectedCut(n: Numbers, rules: set<Rule>, url: string, found: nat, params: Params)
    requires Selects(n, rules, url, found, params)
    ensures found != 0 ==> exists r, at :: r in rules && CutBy(n, r, url, at, found, params)
    ensures forall r, at | r in rules && IsCut(n, r.0, url, at) && at[0] == 0 :: 0 < found <= r.1
  {
    if found != 0 {
      var r :| r in rules && r.1 == found && Match(n, r.0, url, 0, NO_PARAMS) == Some(params);
      MatchIsCut(n, r.0, url, params);
      var at :| IsCut(n, r.0, url, at) && at[0] == 0 && params == ParamsOf(n, r.0, url, at);
      assert CutBy(n, r, url, at, found, params);
    }
    forall r, at | r in rules && IsCut(n, r.0, url, at) && at[0] == 0 ensures 0 < found <= r.1 {
      CutMatches(n, r.0, url, at, NO_PARAMS);
    }
  }

  // ---------------------------------------------------------------- the text of a pattern

  /** A pattern as it is written: characters, and tags. */
  datatype Item = Character(c: char) | Tagged(name: string)

  function ItemText(item: Item): string {
    match item
    case Character(c) => [c]
    case Tagged(name) => "<" + name + ">"
  }

  function ItemsText(items: seq<Item>): string {
    if items == [] then "" else ItemText(items[0]) + ItemsText(items[1..])
  }

  predicate KnownTag(name: string) {
    name == "int" || name == "uint" || name == "float" || name == "double" || name == "str" || name == "string" || name == "path"
  }

  /** What the names of tags stand for. */
  function TokenOf(item: Item): Token {
    match item
    case Character(c) => Lit(c)
    case Tagged(name) =>
      Par(if name == "int" then INT else if name == "uint" then UINT
          else if name == "float" || name == "double" then DOUBLE
          else if name == "path" then PATH else STRING)
  }

  predicate WrittenWell(items: seq<Item>) {
    forall i | 0 <= i < |items| :: if items[i].Character? then items[i].c != '<' && items[i].c != '\0' else KnownTag(items[i].name)
  }

  function TokensOf(items: seq<Item>): seq<Token> {
    if items == [] then [] else [TokenOf(items[0])] + TokensOf(items[1..])
  }

  lemma TagsDiffer(url: string, i: nat, tag: string, other: string, k: nat)
    requires PrefixAt(url, i, tag) && k < |tag| && k < |other| && tag[k] != other[k]
    ensures !PrefixAt(url, i, other)
  {
    assert url[i..i + |tag|][k] == url[i + k];
    if i + |other| <= |url| {
      assert url[i..i + |other|][k] == url[i + k];
    }
  }

  lemma NumberTag(url: string, i: nat, name: string)
    requires name == "int" || name == "uint" || name == "float" || name == "double"
    requires PrefixAt(url, i, "<" + name + ">")
    ensures TagAt(url, i) == Some((TokenOf(Tagged(name)).p, |name| + 2))
  {
    var tag := "<" + name + ">";
    assert url[i..i + |tag|][0] == url[i];
    if name != "int" {
      TagsDiffer(url, i, tag, "<int>", 1);
    }
    if name != "int" && name != "uint" {
      TagsDiffer(url, i, tag, "<uint>", 1);
    }
    if name == "double" {
      TagsDiffer(url, i, tag, "<float>", 1);
    }
    assert "<int>" == "<" + "int" + ">" && "<uint>" == "<" + "uint" + ">";
    assert "<float>" == "<" + "float" + ">" && "<double>" == "<" + "double" + ">";
  }

  lemma TextTag(url: string, i: nat, name: string)
    requires name == "str" || name == "string" || name == "path"
    requires PrefixAt(url, i, "<" + name + ">")
    ensures TagAt(url, i) == Some((TokenOf(Tagged(name)).p, |name| + 2))
  {
    var tag := "<" + name + ">";
    assert url[i..i + |tag|][0] == url[i];
    TagsDiffer(url, i, tag, "<int>", 1);
    TagsDiffer(url, i, tag, "<uint>", 1);
    TagsDiffer(url, i, tag, "<float>", 1);
    TagsDiffer(url, i, tag, "<double>", 1);
    if name == "path" {
      TagsDiffer(url, i, tag, "<str>", 1);
      TagsDiffer(url, i, tag, "<string>", 1);
    } else if name == "string" {
      TagsDiffer(url, i, tag, "<str>", 4);
    }
    assert "<str>" == "<" + "str" + ">" && "<string>" == "<" + "string" + ">" && "<path>" == "<" + "path" + ">";
  }

  lemma ItemFirst(pre: string, item: Item, rest: string) returns (url: string)
    requires if item.Character? then item.c != '<' else KnownTag(item.name)
    ensures url == pre + (ItemText(item) + rest) == (pre + ItemText(item)) + rest
    ensures Tokens(url, |pre|) == [TokenOf(item)] + Tokens(url, |pre + ItemText(item)|)
  {
    url := pre + (ItemText(item) + rest);
    assert url == (pre + ItemText(item)) + rest;
    match item
    case Character(c) => assert url[|pre|] == c;
    case Tagged(name) =>
      assert url[|pre|..|pre| + |name| + 2] == "<" + name + ">";
      if name == "str" || name == "string" || name == "path" {
        TextTag(url, |pre|, name);
      } else {
        NumberTag(url, |pre|, name);
      }
  }

  lemma {:induction false} TokensFrom(pre: string, items: seq<Item>)
    requires WrittenWell(items)
    ensures Tokens(pre + ItemsText(items), |pre|) == TokensOf(items)
    decreases |items|
  {
    if items == [] {
      assert pre + "" == pre;
    } else {
      var url := ItemFirst(pre, items[0], ItemsText(items[1..]));
      TokensFrom(pre + ItemText(items[0]), items[1..]);
    }
  }

  /** The text of a rule gives one token for each character outside tags and one of its kind for each tag. */
  lemma PatternOf(items: seq<Item>)
    requires WrittenWell(items)
    ensures Pattern(ItemsText(items)) == TokensOf(items)
  {
    assert "" + ItemsText(items) == ItemsText(items);
    TokensFrom("", items);
  }
}
