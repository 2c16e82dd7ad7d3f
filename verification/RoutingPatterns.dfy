/** Rule patterns and what it means for a URL to match one (routing.h of Crow). This is the simple form
    that the routing trie is proved against: a pattern is a list of tokens, matched from left to right. */
module RoutingPatterns {
  import opened Options

  datatype Param = INT | UINT | DOUBLE | STRING | PATH

  datatype Token = Lit(c: char) | Par(p: Param)

  /** The four stacks of `routing_params`. */
  datatype Params = Params(ints: seq<int>, uints: seq<nat>, doubles: seq<real>, strings: seq<string>)

  const NO_PARAMS := Params([], [], [], [])

  /** `strtoll`, `strtoull` and `strtod` at a position: nothing when they convert nothing or report a
      range error, and otherwise the value and the position after it. */
  datatype RawNumbers = RawNumbers(
    strtoll: (string, nat) -> Option<(int, nat)>,
    strtoull: (string, nat) -> Option<(nat, nat)>,
    strtod: (string, nat) -> Option<(real, nat)>)

  ghost predicate Advances(n: RawNumbers) {
    forall url: string, pos: nat | pos < |url| ::
      && (n.strtoll(url, pos).Some? ==> pos < n.strtoll(url, pos).value.1 <= |url|)
      && (n.strtoull(url, pos).Some? ==> pos < n.strtoull(url, pos).value.1 <= |url|)
      && (n.strtod(url, pos).Some? ==> pos < n.strtod(url, pos).value.1 <= |url|)
  }

  type Numbers = n: RawNumbers | Advances(n) witness RawNumbers((url, pos) => None, (url, pos) => None, (url, pos) => None)

  // ---------------------------------------------------------------- matching

  datatype Taken = Taken(params: Params, end: nat)

  predicate Digit(c: char) {
    '0' <= c <= '9'
  }

  /** Where the path segment that contains `pos` ends. */
  function SegmentEnd(url: string, pos: nat): (end: nat)
    requires pos <= |url|
    ensures pos <= end <= |url|
    ensures forall i | pos <= i < end :: url[i] != '/'
    ensures end < |url| ==> url[end] == '/'
    decreases |url| - pos
  {
    if pos == |url| || url[pos] == '/' then pos else SegmentEnd(url, pos + 1)
  }

  /** What one token takes from the URL at `pos`. Every token takes at least one character. */
  function Take(n: Numbers, t: Token, url: string, pos: nat, ps: Params): (r: Option<Taken>)
    requires pos < |url|
    ensures r.Some? ==> pos < r.value.end <= |url|
  {
    var c := url[pos];
    match t
    case Lit(l) => if c == l then Some(Taken(ps, pos + 1)) else None
    case Par(INT) =>
      if Digit(c) || c == '+' || c == '-' then
        match n.strtoll(url, pos)
        case Some((value, end)) => Some(Taken(ps.(ints := ps.ints + [value]), end))
        case None => None
      else None
    case Par(UINT) =>
      if Digit(c) || c == '+' then
        match n.strtoull(url, pos)
        case Some((value, end)) => Some(Taken(ps.(uints := ps.uints + [value]), end))
        case None => None
      else None
    case Par(DOUBLE) =>
      if Digit(c) || c == '+' || c == '-' || c == '.' then
        match n.strtod(url, pos)
        case Some((value, end)) => Some(Taken(ps.(doubles := ps.doubles + [value]), end))
        case None => None
      else None
    case Par(STRING) =>
      var end := SegmentEnd(url, pos);
      if end != pos then Some(Taken(ps.(strings := ps.strings + [url[pos..end]]), end)) else None
    case Par(PATH) =>
      Some(Taken(ps.(strings := ps.strings + [url[pos..]]), |url|))
  }

  /** The URL from `pos` on, matched against the whole pattern; the parameters come after `ps`. */
  function Match(n: Numbers, tokens: seq<Token>, url: string, pos: nat, ps: Params): Option<Params>
    requires pos <= |url|
    decreases |tokens|
  {
    if tokens == [] then if pos == |url| then Some(ps) else None
    else if pos == |url| then None
    else
      match Take(n, tokens[0], url, pos, ps)
      case None => None
      case Some(taken) => Match(n, tokens[1..], url, taken.end, taken.params)
  }

  function Lits(key: string): (tokens: seq<Token>)
    ensures |tokens| == |key| && forall i | 0 <= i < |key| :: tokens[i] == Lit(key[i])
  {
    seq(|key|, i requires 0 <= i < |key| => Lit(key[i]))
  }

  predicate PrefixAt(url: string, pos: nat, key: string) {
    pos + |key| <= |url| && url[pos..pos + |key|] == key
  }

  /** A run of literal tokens is one comparison. */
  lemma {:induction false} MatchKey(n: Numbers, key: string, rest: seq<Token>, url: string, pos: nat, ps: Params)
    requires pos <= |url|
    ensures Match(n, Lits(key) + rest, url, pos, ps)
            == if PrefixAt(url, pos, key) then Match(n, rest, url, pos + |key|, ps) else None
    decreases |key|
  {
    if key == "" {
      assert Lits(key) + rest == rest;
    } else {
      assert (Lits(key) + rest)[1..] == Lits(key[1..]) + rest;
      if pos < |url| && url[pos] == key[0] {
        MatchKey(n, key[1..], rest, url, pos + 1, ps);
        assert pos + |key| <= |url| ==> url[pos..pos + |key|] == [url[pos]] + url[pos + 1..pos + |key|];
        assert key == [key[0]] + key[1..];
      }
    }
  }

  // ---------------------------------------------------------------- patterns

  /** The tag that starts at `i`, with its length. */
  function TagAt(url: string, i: nat): (r: Option<(Param, nat)>)
    ensures r.Some? ==> 0 < r.value.1 && i + r.value.1 <= |url| && url[i] == '<'
  {
    if i >= |url| || url[i] != '<' then None
    else if PrefixAt(url, i, "<int>") then Tag(url, i, "<int>", INT)
    else if PrefixAt(url, i, "<uint>") then Tag(url, i, "<uint>", UINT)
    else if PrefixAt(url, i, "<float>") then Tag(url, i, "<float>", DOUBLE)
    else if PrefixAt(url, i, "<double>") then Tag(url, i, "<double>", DOUBLE)
    else if PrefixAt(url, i, "<str>") then Tag(url, i, "<str>", STRING)
    else if PrefixAt(url, i, "<string>") then Tag(url, i, "<string>", STRING)
    else if PrefixAt(url, i, "<path>") then Tag(url, i, "<path>", PATH)
    else None
  }

  function Tag(url: string, i: nat, name: string, p: Param): (r: Option<(Param, nat)>)
    requires PrefixAt(url, i, name) && |name| > 0
    ensures r == Some((p, |name|)) && url[i] == name[0]
  {
    assert url[i..i + |name|][0] == name[0];
    Some((p, |name|))
  }

  function Tokens(url: string, i: nat): seq<Token>
    requires i <= |url|
    decreases |url| - i
  {
    if i == |url| then []
    else
      match TagAt(url, i)
      case Some((p, length)) => [Par(p)] + Tokens(url, i + length)
      case None => [Lit(url[i])] + Tokens(url, i + 1)
  }

  function Pattern(url: string): seq<Token> {
    Tokens(url, 0)
  }

  /** Every `<` begins a known tag, and there is no NUL. */
  predicate WellFormed(url: string) {
    Lit('<') !in Pattern(url) && '\0' !in url
  }

  // ---------------------------------------------------------------- selection

  type Rule = (seq<Token>, nat)

  ghost predicate Has(rules: set<Rule>, pattern: seq<Token>) {
    exists r :: r in rules && r.0 == pattern
  }

  lemma HasMore(rules: set<Rule>, pattern: seq<Token>, index: nat, other: seq<Token>)
    requires pattern != other
    ensures Has(rules + {(pattern, index)}, other) <==> Has(rules, other)
  {
    forall r | r in rules ensures r in rules + {(pattern, index)} {
    }
  }

  /** The linear scan: the smallest rule index among the patterns that match the whole URL, with the
      parameters that a pattern of this index takes, or 0 when none matches. */
  ghost predicate Selects(n: Numbers, rules: set<Rule>, url: string, found: nat, params: Params) {
    && (forall r | r in rules && Match(n, r.0, url, 0, NO_PARAMS).Some? :: 0 < found <= r.1)
    && (found != 0 ==> SelectedBy(n, rules, url, found, params))
  }

  ghost predicate SelectedBy(n: Numbers, rules: set<Rule>, url: string, found: nat, params: Params) {
    exists r :: r in rules && r.1 == found && Match(n, r.0, url, 0, NO_PARAMS) == Some(params)
  }

  /** The index is determined, and so are the parameters when one pattern has this index. */
  lemma SelectsOne(n: Numbers, rules: set<Rule>, url: string, f: nat, ps: Params, f': nat, ps': Params)
    requires Selects(n, rules, url, f, ps) && Selects(n, rules, url, f', ps')
    ensures f == f'
    ensures f != 0 && (forall r, r' | r in rules && r' in rules && r.1 == f && r'.1 == f :: r == r') ==> ps == ps'
  {
    if f != 0 {
      var r :| r in rules && r.1 == f && Match(n, r.0, url, 0, NO_PARAMS) == Some(ps);
    }
    if f' != 0 {
      var r :| r in rules && r.1 == f' && Match(n, r.0, url, 0, NO_PARAMS) == Some(ps');
    }
  }
}
