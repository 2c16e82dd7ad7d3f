/** A rule of the router whose redirect never ends. */
module RedirectLoops {
  import opened Options
  import opened RoutingPatterns
  import opened Router
  import opened Redirects
  import ServerRoutes

  const RULE := "/a/<path>/"
  const URL := "/a/x"

  lemma PathTag(url: string, i: nat)
    requires PrefixAt(url, i, "<path>")
    ensures TagAt(url, i) == Some((PATH, 6))
  {
    assert url[i..i + 6][1] == url[i + 1];
    ServerRoutes.NotPrefix(url, i, "<int>", 1);
    ServerRoutes.NotPrefix(url, i, "<uint>", 1);
    ServerRoutes.NotPrefix(url, i, "<float>", 1);
    ServerRoutes.NotPrefix(url, i, "<double>", 1);
    ServerRoutes.NotPrefix(url, i, "<str>", 1);
    ServerRoutes.NotPrefix(url, i, "<string>", 1);
  }

  lemma RedirectPattern()
    ensures Pattern(WithoutSlash(RULE)) == Lits("/a/") + [Par(PATH)]
  {
    var s := WithoutSlash(RULE);
    assert s == "/a/<path>" && s[0..3] == "/a/" && s[3..9] == "<path>";
    ServerRoutes.LiteralTokens(s, 0, 3);
    PathTag(s, 3);
    assert Tokens(s, 9) == [];
    assert Tokens(s, 3) == [Par(PATH)] + [];
  }

  lemma RuleIsWellFormed()
    ensures WellFormed(RULE)
  {
    RedirectPattern();
    PatternWithoutSlash(RULE);
  }

  lemma UrlMatches(n: Numbers)
    ensures Match(n, Lits("/a/") + [Par(PATH)], URL, 0, NO_PARAMS) == Some(Params([], [], [], ["x"]))
  {
    var t := Lits("/a/") + [Par(PATH)];
    assert t[1..][1..][1..] == [Par(PATH)] && [Par(PATH)][1..] == [];
    assert URL[3..] == "x" && |URL| == 4;
    assert Take(n, Par(PATH), URL, 3, NO_PARAMS) == Some(Taken(Params([], [], [], ["x"]), 4)) by {
      assert NO_PARAMS.strings + ["x"] == ["x"];
    }
    assert Match(n, [Par(PATH)], URL, 3, NO_PARAMS) == Some(Params([], [], [], ["x"]));
    assert Match(n, t[1..][1..], URL, 2, NO_PARAMS) == Match(n, [Par(PATH)], URL, 3, NO_PARAMS);
    assert Match(n, t[1..], URL, 1, NO_PARAMS) == Match(n, t[1..][1..], URL, 2, NO_PARAMS);
  }

  /** With the rule `/a/<path>/` alone, `/a/x` and each URL that comes of it is redirected to a longer one. */
  lemma PathRuleLoops(n: Numbers, k: nat, host: string, res: Response)
    requires SlashStops(n) && Answers(n, [EntriesOf([RULE])], Table([RULE]), 0, URL + Slashes(k), host, res)
    ensures res == Redirect(Location(host, URL + Slashes(k)))
  {
    RedirectPattern();
    UrlMatches(n);
    var p := Lits("/a/") + [Par(PATH)];
    assert [RULE][..0] == [] && EntriesOf([RULE]) == WithEntries({}, RULE, 2);
    assert (p, RULE_SPECIAL_REDIRECT_SLASH) in EntriesOf([RULE]) && EndsInPath(p);
    PathRedirectsForever(n, [EntriesOf([RULE])], Table([RULE]), 0, URL, k, host, res);
  }

  // ---------------------------------------------------------------- a loop that begins elsewhere

  const ONE := "/<string>/"
  const TWO := "/a//"
  const START := "/a"

  lemma StringRedirect()
    ensures Pattern(WithoutSlash(ONE)) == [Lit('/'), Par(STRING)]
  {
    var s := WithoutSlash(ONE);
    assert s == "/<string>" && s[0..1] == "/" && s[1..9] == "<string>";
    ServerRoutes.LiteralTokens(s, 0, 1);
    ServerRoutes.StringTag(s, 1);
    assert Tokens(s, 9) == [];
    assert Tokens(s, 1) == [Par(STRING)] + [];
  }

  lemma SlashRedirect()
    ensures Pattern(WithoutSlash(TWO)) == Lits("/a/")
  {
    assert WithoutSlash(TWO) == "/a/";
    ServerRoutes.LiteralPattern("/a/");
  }

  lemma ThreeEntries(a: string, b: string, c: string)
    requires TrailingSlash(a) && TrailingSlash(b) && TrailingSlash(c)
    ensures EntriesOf([a, b, c])
            == {(Pattern(a), 2)} + {(Pattern(WithoutSlash(a)), RULE_SPECIAL_REDIRECT_SLASH)}
               + {(Pattern(b), 3)} + {(Pattern(WithoutSlash(b)), RULE_SPECIAL_REDIRECT_SLASH)}
               + {(Pattern(c), 4)} + {(Pattern(WithoutSlash(c)), RULE_SPECIAL_REDIRECT_SLASH)}
  {
    var list := [a, b, c];
    assert list[..2] == [a, b] && list[..2][..1] == [a] && list[..2][..1][..0] == [];
    assert EntriesOf([a]) == WithEntries({}, a, 2);
    assert EntriesOf([a, b]) == WithEntries(EntriesOf([a]), b, 3);
    assert EntriesOf(list) == WithEntries(EntriesOf([a, b]), c, 4);
  }

  /** What the rules `/<string>/`, `/a//` and `/a/<path>/` redirect. */
  lemma ThreeRedirects(tokens: seq<Token>)
    ensures (tokens, RULE_SPECIAL_REDIRECT_SLASH) in EntriesOf([ONE, TWO, RULE]) <==>
            tokens == [Lit('/'), Par(STRING)] || tokens == Lits("/a/") || tokens == Lits("/a/") + [Par(PATH)]
  {
    StringRedirect();
    SlashRedirect();
    RedirectPattern();
    ThreeEntries(ONE, TWO, RULE);
  }

  ghost predicate OtherThan(rule: string, other: string)
    requires TrailingSlash(rule) && TrailingSlash(other)
  {
    && Pattern(rule) != Pattern(other) && Pattern(rule) != Pattern(WithoutSlash(other))
    && Pattern(WithoutSlash(rule)) != Pattern(other) && Pattern(WithoutSlash(rule)) != Pattern(WithoutSlash(other))
  }

  lemma StaysFree(table: set<Rule>, rule: string, other: string, index: nat)
    requires TrailingSlash(rule) && TrailingSlash(other) && OtherThan(rule, other) && !Occupied(rule, table)
    ensures !Occupied(rule, WithEntries(table, other, index))
  {
  }

  lemma ThreeClear(a: string, b: string, c: string)
    requires TrailingSlash(a) && TrailingSlash(b) && TrailingSlash(c) && OtherThan(b, a) && OtherThan(c, a) && OtherThan(c, b)
    ensures NoClash([a, b, c])
  {
    var list := [a, b, c];
    assert list[..0] == [] && list[..1] == [a] && list[..2] == [a, b];
    assert [a][..0] == [] && EntriesOf([a]) == WithEntries({}, a, 2);
    assert [a, b][..1] == [a] && EntriesOf([a, b]) == WithEntries(EntriesOf([a]), b, 3);
    StaysFree({}, b, a, 2);
    StaysFree({}, c, a, 2);
    StaysFree(EntriesOf([a]), c, b, 3);
    assert Fits(list, 0) && Fits(list, 1) && Fits(list, 2);
  }

  /** The router accepts these rules. */
  lemma ThreeAccepted()
    ensures WellFormed(ONE) && WellFormed(TWO) && WellFormed(RULE) && NoClash([ONE, TWO, RULE])
  {
    StringRedirect();
    SlashRedirect();
    RedirectPattern();
    PatternWithoutSlash(ONE);
    PatternWithoutSlash(TWO);
    PatternWithoutSlash(RULE);
    var p, q, r := [Lit('/'), Par(STRING)], Lits("/a/"), Lits("/a/") + [Par(PATH)];
    assert p[1] != q[1] && r[3] != (q + [Lit('/')])[3];
    ThreeClear(ONE, TWO, RULE);
  }

  lemma FirstSteps(n: Numbers)
    ensures Match(n, [Lit('/'), Par(STRING)], START, 0, NO_PARAMS).Some?
    ensures Match(n, Lits("/a/"), START + "/", 0, NO_PARAMS).Some?
    ensures Match(n, Lits("/a/") + [Par(PATH)], START + "//", 0, NO_PARAMS).Some?
    ensures Match(n, Lits("/a/") + [Par(PATH)], START, 0, NO_PARAMS) == None
  {
    var p := Lits("/a/") + [Par(PATH)];
    var u := START + "//";
    assert [Lit('/'), Par(STRING)][1..] == [Par(STRING)] && [Par(STRING)][1..] == [];
    assert SegmentEnd(START, 1) == 2;
    assert Lits("/a/")[1..][1..] == [Lit('/')] && [Lit('/')][1..] == [];
    assert p[1..][1..][1..] == [Par(PATH)] && [Par(PATH)][1..] == [];
    assert Match(n, [Par(PATH)], u, 3, NO_PARAMS).Some?;
    assert Match(n, p[1..][1..], u, 2, NO_PARAMS) == Match(n, [Par(PATH)], u, 3, NO_PARAMS);
    assert Match(n, p[1..], u, 1, NO_PARAMS) == Match(n, p[1..][1..], u, 2, NO_PARAMS);
    assert Match(n, p[1..][1..], START, 2, NO_PARAMS) == None;
    assert Match(n, p[1..], START, 1, NO_PARAMS) == Match(n, p[1..][1..], START, 2, NO_PARAMS);
  }

  /** No redirect that ends in a path parameter matches `/a`, and yet it is redirected without end: the other
      redirects lead it to one, in two steps. */
  lemma OthersLeadThere(n: Numbers)
    requires SlashStops(n)
    ensures var table := EntriesOf([ONE, TWO, RULE]);
            !PathRedirectAt(n, table, START) && Forever(n, table, START) && LeadsToPath(n, table, START, 2)
  {
    var table := EntriesOf([ONE, TWO, RULE]);
    TwoStepsThere(n, table, [Lit('/'), Par(STRING)], Lits("/a/"), Lits("/a/") + [Par(PATH)]);
    ForeverExactly(n, table, START, 4);
  }

  lemma TwoStepsThere(n: Numbers, table: set<Rule>, p: seq<Token>, q: seq<Token>, r: seq<Token>)
    requires table == EntriesOf([ONE, TWO, RULE])
    requires p == [Lit('/'), Par(STRING)] && q == Lits("/a/") && r == Lits("/a/") + [Par(PATH)]
    ensures !PathRedirectAt(n, table, START) && LeadsToPath(n, table, START, 2)
    ensures forall tokens :: (tokens, RULE_SPECIAL_REDIRECT_SLASH) in table ==> |tokens| <= 4
  {
    forall tokens ensures (tokens, RULE_SPECIAL_REDIRECT_SLASH) in table <==> tokens == p || tokens == q || tokens == r {
      ThreeRedirects(tokens);
    }
    FirstSteps(n);
    assert Slashes(1) == "/" && Slashes(2) == "//" && START + Slashes(0) == START;
    assert RedirectAt(n, table, START + Slashes(0)) && RedirectAt(n, table, START + Slashes(1));
    assert EndsInPath(r) && PathRedirectAt(n, table, START + Slashes(2));
  }
}
