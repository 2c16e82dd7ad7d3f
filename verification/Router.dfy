/** The router (`Router` in routing.h of Crow): one table of rules and one trie for each HTTP method. */
module Router {
  import opened Options
  import opened Basics
  import opened HttpMethods
  import opened RoutingPatterns
  import opened RoutingTrie

  const METHOD_COUNT := 34
  const RULE_SPECIAL_REDIRECT_SLASH := 1
  const RULE_INDEX_RANGE := 0x1_0000

  predicate TrailingSlash(rule: string) {
    |rule| > 1 && rule[|rule| - 1] == '/'
  }

  function WithoutSlash(rule: string): string
    requires TrailingSlash(rule)
  {
    rule[..|rule| - 1]
  }

  /** The rules of a trie after one more has been added. */
  function WithEntries(rules: set<Rule>, rule: string, index: nat): set<Rule> {
    if TrailingSlash(rule)
    then rules + {(Pattern(rule), index)} + {(Pattern(WithoutSlash(rule)), RULE_SPECIAL_REDIRECT_SLASH)}
    else rules + {(Pattern(rule), index)}
  }

  // ---------------------------------------------------------------- patterns that end in a slash

  lemma PrefixBeforeSlash(s: string, i: nat, name: string)
    requires name != "" && name[|name| - 1] != '/'
    ensures PrefixAt(s + "/", i, name) <==> PrefixAt(s, i, name)
  {
    var url := s + "/";
    if i + |name| <= |s| {
      assert url[i..i + |name|] == s[i..i + |name|];
    } else if i + |name| <= |url| {
      assert url[i..i + |name|][|name| - 1] == '/';
    }
  }

  lemma TagBeforeSlash(s: string, i: nat)
    ensures TagAt(s + "/", i) == TagAt(s, i)
  {
    PrefixBeforeSlash(s, i, "<int>");
    PrefixBeforeSlash(s, i, "<uint>");
    PrefixBeforeSlash(s, i, "<float>");
    PrefixBeforeSlash(s, i, "<double>");
    PrefixBeforeSlash(s, i, "<str>");
    PrefixBeforeSlash(s, i, "<string>");
    PrefixBeforeSlash(s, i, "<path>");
  }

  lemma {:induction false} TokensBeforeSlash(s: string, i: nat)
    requires i <= |s|
    ensures Tokens(s + "/", i) == Tokens(s, i) + [Lit('/')]
    decreases |s| - i
  {
    if i == |s| {
      LastSlash(s);
    } else {
      var t, next := SameToken(s, i);
      TokensBeforeSlash(s, next);
      Grouped([t], Tokens(s, next), [Lit('/')]);
    }
  }

  lemma TokensTag(url: string, i: nat, p: Param, length: nat)
    requires i < |url| && TagAt(url, i) == Some((p, length))
    ensures Tokens(url, i) == [Par(p)] + Tokens(url, i + length)
  {
  }

  lemma TokensLit(url: string, i: nat)
    requires i < |url| && TagAt(url, i) == None
    ensures Tokens(url, i) == [Lit(url[i])] + Tokens(url, i + 1)
  {
  }

  /** A slash at the end changes no token before it. */
  lemma SameToken(s: string, i: nat) returns (t: Token, next: nat)
    requires i < |s|
    ensures i < next <= |s| && Tokens(s, i) == [t] + Tokens(s, next) && Tokens(s + "/", i) == [t] + Tokens(s + "/", next)
  {
    TagBeforeSlash(s, i);
    t, next := OneToken(s, i);
    var t', next' := OneToken(s + "/", i);
  }

  lemma OneToken(url: string, i: nat) returns (t: Token, next: nat)
    requires i < |url|
    ensures i < next <= |url| && Tokens(url, i) == [t] + Tokens(url, next)
    ensures match TagAt(url, i)
            case Some((p, length)) => t == Par(p) && next == i + length
            case None => t == Lit(url[i]) && next == i + 1
  {
    var tag := TagAt(url, i);
    if tag == None {
      t, next := Lit(url[i]), i + 1;
      TokensLit(url, i);
    } else {
      t, next := Par(tag.value.0), i + tag.value.1;
      TokensTag(url, i, tag.value.0, tag.value.1);
    }
  }

  lemma LastSlash(s: string)
    ensures Tokens(s + "/", |s|) == [Lit('/')] && Tokens(s, |s|) == []
  {
    TokensLit(s + "/", |s|);
    assert Tokens(s + "/", |s| + 1) == [];
  }

  /** The redirect's pattern is the rule's pattern without its last slash. */
  lemma PatternWithoutSlash(rule: string)
    requires TrailingSlash(rule)
    ensures Pattern(rule) == Pattern(WithoutSlash(rule)) + [Lit('/')]
    ensures WellFormed(rule) ==> WellFormed(WithoutSlash(rule))
  {
    assert rule == WithoutSlash(rule) + "/";
    TokensBeforeSlash(WithoutSlash(rule), 0);
  }

  lemma PatternsDiffer(rule: string) returns (p: seq<Token>, q: seq<Token>)
    requires TrailingSlash(rule)
    ensures p == Pattern(rule) && q == Pattern(WithoutSlash(rule)) && p != q
    ensures WellFormed(rule) ==> WellFormed(WithoutSlash(rule))
  {
    p, q := Pattern(rule), Pattern(WithoutSlash(rule));
    PatternWithoutSlash(rule);
  }

  // ---------------------------------------------------------------- one method

  /** What the entries of a trie stand for: index 1 for a redirect to some rule that ends in a slash, and
      every other index for the rule at that place in the table. */
  ghost predicate Stands(rules: seq<Option<string>>, entry: Rule) {
    if entry.1 == RULE_SPECIAL_REDIRECT_SLASH then
      exists i :: 2 <= i < |rules| && rules[i].Some? && TrailingSlash(rules[i].value)
                  && entry.0 == Pattern(WithoutSlash(rules[i].value))
    else
      2 <= entry.1 < |rules| && rules[entry.1].Some? && entry.0 == Pattern(rules[entry.1].value)
  }

  class PerMethod {
    var rules: seq<Option<string>>     // the rule objects, by their patterns; 0 and 1 are reserved
    const trie: Trie

    ghost predicate Valid()
      reads this, trie, trie.graph.cells.Keys
    {
      && trie.Valid() && |rules| >= 2 && Fruitful(trie.graph)
      && forall e | e in trie.TheRules() :: Stands(rules, e)
    }

    constructor ()
      ensures Valid() && Unoptimized(trie.graph) && Rooted(trie.graph) && trie.TheRules() == {}
      ensures rules == [None, None] && fresh(trie) && fresh(trie.graph.cells.Keys)
    {
      rules := [None, None];
      trie := new Trie();
    }

    /** `internal_add_rule_object`, for one method. An error (the pattern, or the pattern of its
        redirect, is taken) stops the start of the server. */
    method AddRule(rule: string) returns (ok: bool)
      requires Valid() && Unoptimized(trie.graph) && WellFormed(rule) && |rules| < RULE_INDEX_RANGE
      modifies this, trie, trie.graph.cells.Keys
      ensures Valid() && Unoptimized(trie.graph) && trie.Grown()
      ensures rules == old(rules) + [Some(rule)]
      ensures ok ==> trie.TheRules() == WithEntries(old(trie.TheRules()), rule, old(|rules|))
      ensures ok <==> !Occupied(rule, old(trie.TheRules()))
      ensures old(Rooted(trie.graph)) && FromRoot(rule) ==> Rooted(trie.graph)
    {
      StandsMore(rules, rule, trie.TheRules());
      var index := |rules|;
      rules := rules + [Some(rule)];
      ok := AddEntries(trie, rule, index);
    }
  }

  /** There is a rule, or a redirect, for the pattern already, or for the pattern of its redirect. */
  ghost predicate Occupied(rule: string, rules: set<Rule>) {
    Has(rules, Pattern(rule)) || (TrailingSlash(rule) && Has(rules, Pattern(WithoutSlash(rule))))
  }

  method AddEntries(trie: Trie, rule: string, index: nat) returns (ok: bool)
    requires trie.Valid() && Unoptimized(trie.graph) && WellFormed(rule) && index != 0 && Fruitful(trie.graph)
    modifies trie, trie.graph.cells.Keys
    ensures trie.Valid() && Unoptimized(trie.graph) && trie.Grown() && Fruitful(trie.graph)
    ensures trie.TheRules() <= WithEntries(old(trie.TheRules()), rule, index)
    ensures ok ==> trie.TheRules() == WithEntries(old(trie.TheRules()), rule, index)
    ensures ok <==> !Occupied(rule, old(trie.TheRules()))
    ensures old(Rooted(trie.graph)) && FromRoot(rule) ==> Rooted(trie.graph)
  {
    ok := trie.Add(rule, index);
    ghost var g1 := trie.graph;
    if FromRoot(rule) && Rooted(old(trie.graph)) {
      RootPattern(rule);
      RootedAlong(old(trie.graph), g1, Pattern(rule));
    }
    if ok && |rule| > 1 && rule[|rule| - 1] == '/' {
      ghost var p, q := PatternsDiffer(rule);
      HasMore(old(trie.TheRules()), p, index, q);
      ok := trie.Add(rule[..|rule| - 1], RULE_SPECIAL_REDIRECT_SLASH);
      if FromRoot(rule) && Rooted(g1) {
        RootPattern(WithoutSlash(rule));
        RootedAlong(g1, trie.graph, q);
      }
    }
  }

  predicate FromRoot(rule: string) {
    rule != "" && rule[0] == '/'
  }

  lemma RootPattern(rule: string)
    requires FromRoot(rule)
    ensures Pattern(rule) != [] && Pattern(rule)[0] == Lit('/')
  {
  }

  /** The rules that a list of patterns, added one after the other, puts into a trie. */
  function EntriesOf(list: seq<string>): set<Rule> {
    if list == [] then {} else WithEntries(EntriesOf(list[..|list| - 1]), list[|list| - 1], |list| + 1)
  }

  /** No pattern is that of an earlier rule or redirect, and neither is that of its redirect. */
  ghost predicate NoClash(list: seq<string>) {
    Clear(list, |list|)
  }

  ghost predicate Clear(list: seq<string>, i: nat)
    requires i <= |list|
  {
    forall k | 0 <= k < i :: Fits(list, k)
  }

  ghost predicate Fits(list: seq<string>, k: nat)
    requires k < |list|
  {
    !Occupied(list[k], EntriesOf(list[..k]))
  }

  function Table(list: seq<string>): seq<Option<string>> {
    [None, None] + seq(|list|, i requires 0 <= i < |list| => Some(list[i]))
  }

  lemma ClearStep(list: seq<string>, i: nat)
    requires i < |list|
    ensures Clear(list, i) && Fits(list, i) ==> Clear(list, i + 1)
    ensures !Fits(list, i) ==> !NoClash(list)
  {
  }

  lemma EntriesStep(list: seq<string>, i: nat)
    requires i < |list|
    ensures EntriesOf(list[..i + 1]) == WithEntries(EntriesOf(list[..i]), list[i], i + 2)
  {
    assert list[..i + 1][..i] == list[..i];
  }

  lemma TableStep(list: seq<string>, i: nat)
    requires i < |list|
    ensures Table(list[..i + 1]) == Table(list[..i]) + [Some(list[i])] && |Table(list[..i])| == i + 2
  {
  }

  lemma {:induction false} RootedEntries(list: seq<string>)
    requires forall r | r in list :: FromRoot(r)
    ensures !Has(EntriesOf(list), [])
    decreases |list|
  {
    if list != [] {
      var last := list[|list| - 1];
      RootedEntries(list[..|list| - 1]);
      assert FromRoot(last);
      RootPattern(last);
      if TrailingSlash(last) {
        RootPattern(WithoutSlash(last));
      }
    }
  }

  /** `validate`, for the rules of one method: they are added in order and the trie is compressed. It
      fails exactly when two rules clash, if every rule begins with a slash. */
  method Build(list: seq<string>) returns (m: PerMethod, ok: bool)
    requires (forall r | r in list :: WellFormed(r)) && |list| + 2 <= RULE_INDEX_RANGE
    ensures ok ==> m.Valid() && m.trie.TheRules() == EntriesOf(list) && m.rules == Table(list) && NoClash(list)
    ensures !ok ==> !NoClash(list) || exists r :: r in list && !FromRoot(r)
  {
    m, ok := AddAll(list);
    if ok {
      ghost var rooted := forall r | r in list :: FromRoot(r);
      if rooted {
        RootedEntries(list);
        RootedHeadIsSimple(m.trie.graph);
      }
      ok := m.trie.Validate();
    }
  }

  method AddAll(list: seq<string>) returns (m: PerMethod, ok: bool)
    requires (forall r | r in list :: WellFormed(r)) && |list| + 2 <= RULE_INDEX_RANGE
    ensures fresh(m) && fresh(m.trie) && forall n | n in m.trie.graph.cells :: fresh(n)
    ensures ok <==> NoClash(list)
    ensures ok ==> m.Valid() && Unoptimized(m.trie.graph) && m.trie.TheRules() == EntriesOf(list) && m.rules == Table(list)
    ensures ok && (forall r | r in list :: FromRoot(r)) ==> Rooted(m.trie.graph)
  {
    m := new PerMethod();
    ok := true;
    ghost var rooted := forall r | r in list :: FromRoot(r);
    var i := 0;
    while i < |list|
      invariant i <= |list| && m.Valid() && Unoptimized(m.trie.graph) && m.rules == Table(list[..i])
      invariant fresh(m) && fresh(m.trie) && forall n | n in m.trie.graph.cells :: fresh(n)
      invariant m.trie.TheRules() == EntriesOf(list[..i]) && Clear(list, i)
      invariant rooted ==> Rooted(m.trie.graph)
    {
      ClearStep(list, i);
      ghost var known := m.trie.graph.cells.Keys;
      ok := AddNext(m, list, i);
      forall n | n in m.trie.graph.cells ensures fresh(n) {
        assert n in known || fresh(n);
      }
      if !ok {
        return;
      }
      i := i + 1;
    }
    assert list[..i] == list;
  }

  method AddNext(m: PerMethod, list: seq<string>, i: nat) returns (ok: bool)
    requires i < |list| && i + 2 < RULE_INDEX_RANGE && WellFormed(list[i])
    requires m.Valid() && Unoptimized(m.trie.graph) && m.rules == Table(list[..i])
    requires m.trie.TheRules() == EntriesOf(list[..i])
    modifies m, m.trie, m.trie.graph.cells.Keys
    ensures m.Valid() && Unoptimized(m.trie.graph) && m.rules == Table(list[..i + 1]) && m.trie.Grown()
    ensures ok <==> Fits(list, i)
    ensures ok ==> m.trie.TheRules() == EntriesOf(list[..i + 1])
    ensures old(Rooted(m.trie.graph)) && FromRoot(list[i]) ==> Rooted(m.trie.graph)
  {
    EntriesStep(list, i);
    TableStep(list, i);
    ok := m.AddRule(list[i]);
  }

  lemma StandsMore(rules: seq<Option<string>>, rule: string, entries: set<Rule>)
    requires |rules| >= 2 && forall e | e in entries :: Stands(rules, e)
    ensures forall e | e in WithEntries(entries, rule, |rules|) :: Stands(rules + [Some(rule)], e)
  {
    var rules' := rules + [Some(rule)];
    forall e | e in entries ensures Stands(rules', e) {
      if e.1 == RULE_SPECIAL_REDIRECT_SLASH {
        var i :| 2 <= i < |rules| && rules[i].Some? && TrailingSlash(rules[i].value)
                 && e.0 == Pattern(WithoutSlash(rules[i].value));
        assert rules'[i] == rules[i];
      }
    }
    assert rules'[|rules|] == Some(rule);
  }

  // ---------------------------------------------------------------- requests

  datatype Response =
    | Ignored
    | Allowed(methods: seq<nat>)
    | NotFound
    | MethodNotAllowed
    | Redirect(location: string)
    | Handler(rule: string, params: Params)
    | Corrupted

  ghost predicate Matches(num: Numbers, rules: set<Rule>, url: string) {
    exists r :: r in rules && Match(num, r.0, url, 0, NO_PARAMS).Some?
  }

  lemma SelectsIfMatches(num: Numbers, rules: set<Rule>, url: string, found: nat, params: Params)
    requires Selects(num, rules, url, found, params)
    ensures found != 0 <==> Matches(num, rules, url)
  {
    if found != 0 {
      var r :| r in rules && r.1 == found && Match(num, r.0, url, 0, NO_PARAMS) == Some(params);
    }
  }

  /** The methods below `k` that have a rule for the URL, in order. */
  ghost function Allowing(num: Numbers, tables: seq<set<Rule>>, url: string, k: nat): seq<nat>
    requires k <= |tables|
  {
    if k == 0 then []
    else Allowing(num, tables, url, k - 1) + if Matches(num, tables[k - 1], url) then [k - 1] else []
  }

  lemma AllowingStep(num: Numbers, tables: seq<set<Rule>>, url: string, k: nat)
    requires k < |tables|
    ensures Matches(num, tables[k], url) ==> Allowing(num, tables, url, k + 1) == Allowing(num, tables, url, k) + [k]
    ensures !Matches(num, tables[k], url) ==> Allowing(num, tables, url, k + 1) == Allowing(num, tables, url, k)
  {
  }

  lemma {:induction false} AllowingAll(num: Numbers, tables: seq<set<Rule>>, url: string, k: nat, i: nat)
    requires k <= |tables|
    ensures i in Allowing(num, tables, url, k) <==> i < k && Matches(num, tables[i], url)
  {
    if k > 0 {
      AllowingAll(num, tables, url, k - 1, i);
    }
  }

  /** Each method's table, with the rules that its trie means. */
  ghost predicate Serves(m: PerMethod, table: set<Rule>)
    reads m, m.trie, m.trie.graph.cells.Keys
  {
    m.Valid() && m.trie.TheRules() == table
  }

  ghost predicate AllServe(methods: seq<PerMethod>, tables: seq<set<Rule>>)
    reads methods
    reads set m | m in methods :: m.trie
    reads set m, n | m in methods && n in m.trie.graph.cells.Keys :: n
  {
    |methods| == |tables| && forall i | 0 <= i < |methods| :: Serves(methods[i], tables[i])
  }

  function Location(host: string, url: string): string {
    if host == "" then url + "/" else "http://" + host + url + "/"
  }

  /** How a request for a method other than OPTIONS is answered. */
  ghost predicate Answers(num: Numbers, tables: seq<set<Rule>>, rules: seq<Option<string>>, method_: nat, url: string,
                          host: string, res: Response)
    requires method_ < |tables|
  {
    match res
    case Handler(rule, params) =>
      exists i :: 2 <= i < |rules| && rules[i] == Some(rule) && Selects(num, tables[method_], url, i, params)
    case Redirect(location) =>
      && location == Location(host, url)
      && exists params :: Selects(num, tables[method_], url, RULE_SPECIAL_REDIRECT_SLASH, params)
    case MethodNotAllowed =>
      !Matches(num, tables[method_], url) && exists i :: 0 <= i < |tables| && Matches(num, tables[i], url)
    case NotFound => forall i | 0 <= i < |tables| :: !Matches(num, tables[i], url)
    case _ => false
  }

  method Finds(num: Numbers, m: PerMethod, ghost table: set<Rule>, url: string) returns (any: bool)
    requires Serves(m, table)
    ensures any <==> Matches(num, table, url)
  {
    var found, params := m.trie.FindUrl(num, url);
    SelectsIfMatches(num, table, url, found, params);
    any := found != 0;
  }

  /** Whether some method has a rule for the URL. */
  method FoundInAnotherMethod(num: Numbers, methods: seq<PerMethod>, ghost tables: seq<set<Rule>>, url: string)
    returns (any: bool)
    requires AllServe(methods, tables)
    ensures any <==> exists i :: 0 <= i < |tables| && Matches(num, tables[i], url)
  {
    var i := 0;
    while i < |methods|
      invariant i <= |methods| && forall k | 0 <= k < i :: !Matches(num, tables[k], url)
    {
      any := Finds(num, methods[i], tables[i], url);
      if any {
        return;
      }
      i := i + 1;
    }
    any := false;
  }

  method AllowedMethods(num: Numbers, methods: seq<PerMethod>, ghost tables: seq<set<Rule>>, url: string)
    returns (allow: seq<nat>)
    requires AllServe(methods, tables)
    ensures allow == Allowing(num, tables, url, |tables|)
  {
    allow := [];
    var i: nat := 0;
    while i < |methods|
      invariant i <= |methods| && allow == Allowing(num, tables, url, i)
      modifies {}
    {
      var any := Finds(num, methods[i], tables[i], url);
      AllowingStep(num, tables, url, i);
      if any {
        allow := allow + [i];
      }
      i := i + 1;
    }
  }

  /** Asked for all methods, the router names those whose table has a rule or a redirect. */
  ghost predicate HasRoute(table: set<Rule>) {
    exists r :: r in table && r.0 != []
  }

  /** A node of the trie is there for a rule, so the head has a child exactly when there is one. */
  lemma ChildrenMeanRoutes(m: PerMethod, table: set<Rule>)
    requires Serves(m, table)
    ensures m.trie.head.children != [] <==> HasRoute(table)
  {
    ChildrenMeanRules(m.trie.graph);
    assert m.trie.head.Holds(m.trie.graph.cells[m.trie.head]);
  }

  method HandleOptions(num: Numbers, methods: seq<PerMethod>, ghost tables: seq<set<Rule>>, url: string)
    returns (res: Response)
    requires AllServe(methods, tables)
    ensures url != "/*" ==>
              res == var allow := Allowing(num, tables, url, |tables|); if allow == [] then NotFound else Allowed(allow)
    ensures url == "/*" ==>
              && res.Allowed? && (forall i, j | 0 <= i < j < |res.methods| :: res.methods[i] < res.methods[j])
              && forall i :: i in res.methods <==> 0 <= i < |tables| && HasRoute(tables[i])
  {
    if url == "/*" {
      var allow: seq<nat> := [];
      for i := 0 to |methods|
        invariant forall k | 0 <= k < |allow| :: allow[k] < i
        invariant forall j, k | 0 <= j < k < |allow| :: allow[j] < allow[k]
        invariant forall j :: j in allow <==> 0 <= j < i && HasRoute(tables[j])
      {
        ChildrenMeanRoutes(methods[i], tables[i]);
        if |methods[i].trie.head.children| != 0 {
          allow := allow + [i];
        }
      }
      res := Allowed(allow);
    } else {
      var allow := AllowedMethods(num, methods, tables, url);
      res := if allow == [] then NotFound else Allowed(allow);
    }
  }

  /** The method whose rules decide. */
  function Deciding(name: string): string {
    if name == "HEAD" then "GET" else name
  }

  predicate IsNamed(method_: nat, name: string) {
    method_ < |METHODS| && METHODS[method_] == name
  }

  lemma NamesOfMethods(m: nat)
    requires m < |METHODS|
    ensures |METHODS| == METHOD_COUNT
    ensures m == HEAD <==> METHODS[m] == "HEAD"
    ensures m == OPTIONS <==> METHODS[m] == "OPTIONS"
    ensures m == GET <==> METHODS[m] == "GET"
  {
    NameIs(m, HEAD, "HEAD");
    NameIs(m, OPTIONS, "OPTIONS");
    NameIs(m, GET, "GET");
  }

  lemma NameIs(m: nat, k: nat, name: string)
    requires m < |METHODS| && k < |METHODS| && METHODS[k] == name
    ensures m == k <==> METHODS[m] == name
  {
    if METHODS[m] == name {
      NamesDiffer(m, k);
    }
  }

  /** `handle`: the response for a request is one of the router's own, or that of the handler of the
      rule with the smallest index that matches. Which table decides is said by the method's name. The
      corrupted trie is never met. */
  method Handle(num: Numbers, methods: seq<PerMethod>, ghost tables: seq<set<Rule>>, method_: nat, url: string, host: string)
    returns (res: Response, skipBody: bool)
    requires AllServe(methods, tables) && |methods| == METHOD_COUNT
    ensures skipBody <==> IsNamed(method_, "HEAD")
    ensures method_ >= |METHODS| <==> res == Ignored
    ensures IsNamed(method_, "OPTIONS") && url != "/*" ==>
              res == var allow := Allowing(num, tables, url, |tables|); if allow == [] then NotFound else Allowed(allow)
    ensures IsNamed(method_, "OPTIONS") && url == "/*" ==>
              res.Allowed? && forall i :: i in res.methods <==> 0 <= i < |tables| && HasRoute(tables[i])
    ensures method_ < |METHODS| && !IsNamed(method_, "OPTIONS") ==>
              forall m: nat | m < |methods| && IsNamed(m, Deciding(METHODS[method_])) ::
                Answers(num, tables, methods[m].rules, m, url, host, res)
  {
    skipBody := false;
    var actual := method_;
    NamesOfMethods(GET);
    if method_ >= METHOD_COUNT {
      return Ignored, false;
    }
    NamesOfMethods(method_);
    if method_ == HEAD {
      actual, skipBody := GET, true;
    } else if method_ == OPTIONS {
      res := HandleOptions(num, methods, tables, url);
      return;
    }
    res := HandleMethod(num, methods, tables, actual, url, host);
    forall m: nat | m < |methods| && IsNamed(m, Deciding(METHODS[method_])) ensures m == actual {
      NamesDiffer(m, actual);
    }
  }

  method HandleMethod(num: Numbers, methods: seq<PerMethod>, ghost tables: seq<set<Rule>>, actual: nat, url: string, host: string)
    returns (res: Response)
    requires AllServe(methods, tables)
    requires actual < |methods|
    ensures Answers(num, tables, methods[actual].rules, actual, url, host, res) && res != Ignored
  {
    var rules := methods[actual].rules;
    assert Serves(methods[actual], tables[actual]);
    var found, params := methods[actual].trie.FindUrl(num, url);
    SelectsIfMatches(num, tables[actual], url, found, params);
    if found == 0 {
      var any := FoundInAnotherMethod(num, methods, tables, url);
      return if any then MethodNotAllowed else NotFound;
    }
    assert exists r :: r in tables[actual] && r.1 == found && Stands(rules, r);
    if found >= |rules| {
      return Corrupted;
    }
    if found == RULE_SPECIAL_REDIRECT_SLASH {
      return Redirect(if host == "" then url + "/" else "http://" + host + url + "/");
    }
    return Handler(rules[found].value, params);
  }
}
