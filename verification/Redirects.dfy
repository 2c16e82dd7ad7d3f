/** Where the redirects of the router lead, and exactly which URLs they lead nowhere. */
module Redirects {
  import opened Options
  import opened RoutingPatterns
  import opened Router

  // ---------------------------------------------------------------- one redirect

  /** Number parsing does not look past a slash. */
  ghost predicate SlashStops(n: Numbers) {
    forall url: string, pos: nat | pos < |url| ::
      && n.strtoll(url + "/", pos) == n.strtoll(url, pos)
      && n.strtoull(url + "/", pos) == n.strtoull(url, pos)
      && n.strtod(url + "/", pos) == n.strtod(url, pos)
  }

  predicate EndsInPath(tokens: seq<Token>) {
    tokens != [] && tokens[|tokens| - 1] == Par(PATH)
  }

  lemma {:induction false} SegmentBeforeSlash(url: string, pos: nat)
    requires pos <= |url|
    ensures SegmentEnd(url + "/", pos) == SegmentEnd(url, pos)
    decreases |url| - pos
  {
    if pos < |url| && url[pos] != '/' {
      SegmentBeforeSlash(url, pos + 1);
    }
  }

  lemma TakeBeforeSlash(n: Numbers, t: Token, url: string, pos: nat, ps: Params)
    requires SlashStops(n) && pos < |url| && t != Par(PATH)
    ensures Take(n, t, url + "/", pos, ps) == Take(n, t, url, pos, ps)
  {
    SegmentBeforeSlash(url, pos);
    assert (url + "/")[pos..SegmentEnd(url, pos)] == url[pos..SegmentEnd(url, pos)];
  }

  /** The URL that a redirect leads to is one that the rule behind the redirect matches, with the same
      parameters, unless the pattern ends in a path parameter, which swallows the slash. */
  lemma {:induction false} RedirectLands(n: Numbers, tokens: seq<Token>, url: string, pos: nat, ps: Params)
    requires SlashStops(n) && pos <= |url| && Match(n, tokens, url, pos, ps).Some?
    ensures Match(n, tokens + [Lit('/')], url + "/", pos, ps)
            == if EndsInPath(tokens) then None else Match(n, tokens, url, pos, ps)
    decreases |tokens|
  {
    if tokens == [] {
      assert tokens + [Lit('/')] == [Lit('/')] && [Lit('/')][1..] == [];
    } else {
      assert (tokens + [Lit('/')])[1..] == tokens[1..] + [Lit('/')];
      if tokens[0] == Par(PATH) {
        assert tokens[1..] == [];
      } else {
        TakeBeforeSlash(n, tokens[0], url, pos, ps);
        var taken := Take(n, tokens[0], url, pos, ps).value;
        RedirectLands(n, tokens[1..], url, taken.end, taken.params);
      }
    }
  }

  /** In that case the same tokens match the new URL too. */
  lemma {:induction false} PathTakesSlash(n: Numbers, tokens: seq<Token>, url: string, pos: nat, ps: Params)
    requires SlashStops(n) && pos <= |url| && Match(n, tokens, url, pos, ps).Some? && EndsInPath(tokens)
    ensures Match(n, tokens, url + "/", pos, ps).Some?
    decreases |tokens|
  {
    if tokens[0] == Par(PATH) {
      assert tokens[1..] == [];
    } else {
      TakeBeforeSlash(n, tokens[0], url, pos, ps);
      var taken := Take(n, tokens[0], url, pos, ps).value;
      PathTakesSlash(n, tokens[1..], url, taken.end, taken.params);
    }
  }

  /** A redirect has the smallest index there is: it wins over every rule that matches the same URL. */
  lemma RedirectWins(n: Numbers, rules: set<Rule>, tokens: seq<Token>, url: string, found: nat, params: Params)
    requires (tokens, RULE_SPECIAL_REDIRECT_SLASH) in rules && Match(n, tokens, url, 0, NO_PARAMS).Some?
    requires Selects(n, rules, url, found, params)
    ensures found == RULE_SPECIAL_REDIRECT_SLASH
  {
    var r := (tokens, RULE_SPECIAL_REDIRECT_SLASH);
    assert r in rules && 0 < found <= r.1;
  }

  function Slashes(k: nat): string {
    if k == 0 then "" else Slashes(k - 1) + "/"
  }

  lemma {:induction false} PathTakesSlashes(n: Numbers, tokens: seq<Token>, url: string, k: nat)
    requires SlashStops(n) && Match(n, tokens, url, 0, NO_PARAMS).Some? && EndsInPath(tokens)
    ensures Match(n, tokens, url + Slashes(k), 0, NO_PARAMS).Some?
  {
    if k == 0 {
      assert url + "" == url;
    } else {
      PathTakesSlashes(n, tokens, url, k - 1);
      PathTakesSlash(n, tokens, url + Slashes(k - 1), 0, NO_PARAMS);
      assert url + Slashes(k) == url + Slashes(k - 1) + "/";
    }
  }

  // ---------------------------------------------------------------- which chains of redirects end

  /** The URL is redirected. */
  ghost predicate RedirectAt(n: Numbers, table: set<Rule>, url: string) {
    exists tokens :: (tokens, RULE_SPECIAL_REDIRECT_SLASH) in table && Match(n, tokens, url, 0, NO_PARAMS).Some?
  }

  /** It is redirected for a rule whose redirect ends in a path parameter. */
  ghost predicate PathRedirectAt(n: Numbers, table: set<Rule>, url: string) {
    exists tokens :: (tokens, RULE_SPECIAL_REDIRECT_SLASH) in table && EndsInPath(tokens) && Match(n, tokens, url, 0, NO_PARAMS).Some?
  }

  /** A request is answered by a redirect exactly when some redirect of its method matches, whatever rules there
      are beside it; it leads to the URL with one slash more. */
  lemma RedirectAnswers(n: Numbers, tables: seq<set<Rule>>, rules: seq<Option<string>>, method_: nat, url: string, host: string, res: Response)
    requires method_ < |tables| && Answers(n, tables, rules, method_, url, host, res)
    ensures res.Redirect? <==> RedirectAt(n, tables[method_], url)
    ensures res.Redirect? ==> res.location == Location(host, url)
  {
    var table := tables[method_];
    if RedirectAt(n, table, url) {
      var tokens :| (tokens, RULE_SPECIAL_REDIRECT_SLASH) in table && Match(n, tokens, url, 0, NO_PARAMS).Some?;
      NotOtherwise(n, tables, rules, method_, tokens, url, host, res);
    }
  }

  lemma NotOtherwise(n: Numbers, tables: seq<set<Rule>>, rules: seq<Option<string>>, method_: nat, tokens: seq<Token>,
                     url: string, host: string, res: Response)
    requires method_ < |tables| && (tokens, RULE_SPECIAL_REDIRECT_SLASH) in tables[method_]
    requires Match(n, tokens, url, 0, NO_PARAMS).Some? && Answers(n, tables, rules, method_, url, host, res)
    ensures res.Redirect?
  {
    var r := (tokens, RULE_SPECIAL_REDIRECT_SLASH);
    assert r in tables[method_] && Match(n, r.0, url, 0, NO_PARAMS).Some?;
    assert Matches(n, tables[method_], url);
  }

  lemma {:induction false} SlashesAfter(url: string, k: nat)
    ensures |Slashes(k)| == k && (forall i | 0 <= i < k :: Slashes(k)[i] == '/')
    ensures url + Slashes(k + 1) == url + Slashes(k) + "/"
    decreases k
  {
    if k > 0 {
      SlashesAfter(url, k - 1);
    }
  }

  /** Number parsing does not look past the slashes either. */
  lemma {:induction false} SlashesStop(n: Numbers, url: string, pos: nat, k: nat)
    requires SlashStops(n) && pos < |url|
    ensures n.strtoll(url + Slashes(k), pos) == n.strtoll(url, pos)
    ensures n.strtoull(url + Slashes(k), pos) == n.strtoull(url, pos)
    ensures n.strtod(url + Slashes(k), pos) == n.strtod(url, pos)
    decreases k
  {
    if k == 0 {
      assert url + "" == url;
    } else {
      SlashesStop(n, url, pos, k - 1);
      SlashesAfter(url, k - 1);
    }
  }

  lemma {:induction false} SegmentWithin(url: string, pos: nat, k: nat)
    requires pos <= |url|
    ensures SegmentEnd(url + Slashes(k), pos) <= |url|
    decreases |url| - pos
  {
    SlashesAfter(url, k);
    if pos < |url| && url[pos] != '/' {
      SegmentWithin(url, pos + 1, k);
    }
  }

  /** A token other than a path parameter takes nothing of the slashes, or one of them. */
  lemma TakeWithin(n: Numbers, t: Token, url: string, k: nat, pos: nat, ps: Params)
    requires SlashStops(n) && t != Par(PATH) && pos < |url| + k == |url + Slashes(k)|
    ensures var taken := Take(n, t, url + Slashes(k), pos, ps);
            taken.Some? ==> if pos < |url| then taken.value.end <= |url| else taken.value.end == pos + 1
  {
    SlashesAfter(url, k);
    if pos < |url| {
      SlashesStop(n, url, pos, k);
      SegmentWithin(url, pos, k);
    } else {
      assert (url + Slashes(k))[pos] == '/';
    }
  }

  /** A pattern that does not end in a path parameter matches a bounded number of slashes. */
  lemma {:induction false} SlashesBounded(n: Numbers, tokens: seq<Token>, url: string, k: nat, pos: nat, ps: Params)
    requires SlashStops(n) && !EndsInPath(tokens) && pos <= |url| + k == |url + Slashes(k)|
    requires Match(n, tokens, url + Slashes(k), pos, ps).Some?
    ensures |url| + k - pos <= |tokens| + if pos < |url| then |url| - pos else 0
    decreases |tokens|
  {
    if tokens != [] && tokens[0] != Par(PATH) {
      TakeWithin(n, tokens[0], url, k, pos, ps);
      var taken := Take(n, tokens[0], url + Slashes(k), pos, ps).value;
      SlashesBounded(n, tokens[1..], url, k, taken.end, taken.params);
    }
  }

  /** After as many slashes as the longest redirect has tokens, only a path parameter can go on redirecting. */
  lemma OnlyPathGoesOn(n: Numbers, table: set<Rule>, url: string, k: nat)
    requires SlashStops(n) && forall tokens | (tokens, RULE_SPECIAL_REDIRECT_SLASH) in table :: |tokens| < k
    ensures RedirectAt(n, table, url + Slashes(k)) <==> PathRedirectAt(n, table, url + Slashes(k))
  {
    SlashesAfter(url, k);
    if RedirectAt(n, table, url + Slashes(k)) {
      var tokens :| (tokens, RULE_SPECIAL_REDIRECT_SLASH) in table && Match(n, tokens, url + Slashes(k), 0, NO_PARAMS).Some?;
      if !EndsInPath(tokens) {
        SlashesBounded(n, tokens, url, k, 0, NO_PARAMS);
      }
    }
  }

  /** Without a redirect that ends in a path parameter, every chain of redirects is at most as long as the longest
      redirect. */
  lemma ChainEnds(n: Numbers, tables: seq<set<Rule>>, rules: seq<Option<string>>, method_: nat, url: string, k: nat, host: string, res: Response)
    requires SlashStops(n) && method_ < |tables| && Answers(n, tables, rules, method_, url + Slashes(k), host, res)
    requires forall tokens | (tokens, RULE_SPECIAL_REDIRECT_SLASH) in tables[method_] :: !EndsInPath(tokens) && |tokens| < k
    ensures !res.Redirect?
  {
    RedirectAnswers(n, tables, rules, method_, url + Slashes(k), host, res);
    OnlyPathGoesOn(n, tables[method_], url, k);
  }

  /** When the redirect of a rule ends in a path parameter, a URL that it matches is redirected to the same
      URL with one slash more, that URL is redirected again, and so on without end. */
  lemma PathRedirectsForever(n: Numbers, tables: seq<set<Rule>>, rules: seq<Option<string>>, method_: nat,
                             url: string, k: nat, host: string, res: Response)
    requires method_ < |tables| && SlashStops(n) && PathRedirectAt(n, tables[method_], url)
    requires Answers(n, tables, rules, method_, url + Slashes(k), host, res)
    ensures res == Redirect(Location(host, url + Slashes(k))) && url + Slashes(k) + "/" == url + Slashes(k + 1)
  {
    PathGoesOn(n, tables[method_], url, k);
    RedirectAnswers(n, tables, rules, method_, url + Slashes(k), host, res);
    SlashesAfter(url, k);
  }

  lemma PathGoesOn(n: Numbers, table: set<Rule>, url: string, k: nat)
    requires SlashStops(n) && PathRedirectAt(n, table, url)
    ensures PathRedirectAt(n, table, url + Slashes(k)) && RedirectAt(n, table, url + Slashes(k))
  {
    var tokens :| (tokens, RULE_SPECIAL_REDIRECT_SLASH) in table && EndsInPath(tokens) && Match(n, tokens, url, 0, NO_PARAMS).Some?;
    PathTakesSlashes(n, tokens, url, k);
  }

  lemma {:induction false} SlashesJoin(url: string, i: nat, j: nat)
    ensures url + Slashes(i) + Slashes(j) == url + Slashes(i + j)
    decreases j
  {
    if j > 0 {
      SlashesJoin(url, i, j - 1);
      SlashesAfter(url, i + j - 1);
    }
  }

  /** Redirected with every number of slashes that is appended: without end. */
  ghost predicate Forever(n: Numbers, table: set<Rule>, url: string) {
    forall k: nat :: RedirectAt(n, table, url + Slashes(k))
  }

  /** Redirects lead to a URL that a redirect with a path parameter at its end matches, after `j` steps. */
  ghost predicate LeadsToPath(n: Numbers, table: set<Rule>, url: string, j: nat) {
    PathRedirectAt(n, table, url + Slashes(j)) && forall i: nat | i < j :: RedirectAt(n, table, url + Slashes(i))
  }

  /** For one URL, exactly: it is redirected without end if and only if redirects lead it, in at most as many
      steps as the longest redirect has tokens and one, to a URL that one with a path parameter at its end matches. */
  lemma ForeverExactly(n: Numbers, table: set<Rule>, url: string, most: nat)
    requires SlashStops(n) && forall tokens | (tokens, RULE_SPECIAL_REDIRECT_SLASH) in table :: |tokens| <= most
    ensures Forever(n, table, url) <==> exists j: nat :: j <= most + 1 && LeadsToPath(n, table, url, j)
  {
    if Forever(n, table, url) {
      OnlyPathGoesOn(n, table, url, most + 1);
      assert LeadsToPath(n, table, url, most + 1);
    }
    if j: nat :| j <= most + 1 && LeadsToPath(n, table, url, j) {
      forall k: nat ensures RedirectAt(n, table, url + Slashes(k)) {
        if k >= j {
          PathGoesOn(n, table, url + Slashes(j), k - j);
          SlashesJoin(url, j, k - j);
        }
      }
    }
  }

  lemma {:induction false} LongestRedirect(table: set<Rule>) returns (most: nat)
    ensures forall tokens | (tokens, RULE_SPECIAL_REDIRECT_SLASH) in table :: |tokens| <= most
  {
    if table == {} {
      most := 0;
    } else {
      var r :| r in table;
      most := LongestRedirect(table - {r});
      if |r.0| > most {
        most := |r.0|;
      }
    }
  }

  /** For a table, exactly: some URL is redirected without end if and only if a redirect that ends in a path
      parameter matches some URL. */
  lemma SomeForeverExactly(n: Numbers, table: set<Rule>)
    requires SlashStops(n)
    ensures (exists url :: Forever(n, table, url)) <==> exists url :: PathRedirectAt(n, table, url)
  {
    var most := LongestRedirect(table);
    if url :| Forever(n, table, url) {
      ForeverExactly(n, table, url, most);
      var j: nat :| j <= most + 1 && LeadsToPath(n, table, url, j);
      assert PathRedirectAt(n, table, url + Slashes(j));
    }
    if url :| PathRedirectAt(n, table, url) {
      forall k: nat ensures RedirectAt(n, table, url + Slashes(k)) {
        PathGoesOn(n, table, url, k);
      }
      assert Forever(n, table, url);
    }
  }
}
