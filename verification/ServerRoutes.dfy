/** The routes of the key-value server (HttpServer.cpp) and what they make of a key in a URL. */
module ServerRoutes {
  import opened Options
  import opened Basics
  import opened RoutingPatterns
  import opened RoutingTrie
  import opened Router
  import opened UrlCodec

  const RECORDS := "/api/records/"
  const RECORD := RECORDS + "<string>"
  const RECORDS_WITHOUT_SLASH := "/api/records"
  const READS := "/api/statistics/reads"

  // ---------------------------------------------------------------- the patterns

  lemma LiteralToken(url: string, i: nat)
    requires i < |url| && url[i] != '<'
    ensures Tokens(url, i) == [Lit(url[i])] + Tokens(url, i + 1)
  {
  }

  lemma {:induction false} LiteralTokens(url: string, i: nat, j: nat)
    requires i <= j <= |url| && '<' !in url[i..j]
    ensures Tokens(url, i) == Lits(url[i..j]) + Tokens(url, j)
    decreases j - i
  {
    if i < j {
      LitsFirst(url, i, j);
      LiteralToken(url, i);
      LiteralTokens(url, i + 1, j);
      Grouped([Lit(url[i])], Lits(url[i + 1..j]), Tokens(url, j));
    } else {
      assert Lits(url[i..j]) == [];
    }
  }

  lemma LitsFirst(url: string, i: nat, j: nat)
    requires i < j <= |url| && '<' !in url[i..j]
    ensures Lits(url[i..j]) == [Lit(url[i])] + Lits(url[i + 1..j])
    ensures url[i] != '<' && '<' !in url[i + 1..j]
  {
    var s := url[i..j];
    assert s[0] == url[i] && s[1..] == url[i + 1..j];
    assert forall c | c in s[1..] :: c in s;
  }

  lemma LiteralPattern(s: string)
    requires '<' !in s
    ensures Pattern(s) == Lits(s) && (('\0' !in s) ==> WellFormed(s))
  {
    assert s[0..|s|] == s;
    LiteralTokens(s, 0, |s|);
    assert Tokens(s, |s|) == [];
  }

  lemma NotPrefix(url: string, pos: nat, name: string, k: nat)
    requires k < |name| && pos + k < |url| && url[pos + k] != name[k]
    ensures !PrefixAt(url, pos, name)
  {
    if pos + |name| <= |url| {
      assert url[pos..pos + |name|][k] == url[pos + k];
    }
  }

  lemma StringTag(url: string, i: nat)
    requires PrefixAt(url, i, "<string>")
    ensures TagAt(url, i) == Some((STRING, 8))
  {
    assert url[i..i + 8][1] == url[i + 1] && url[i..i + 8][4] == url[i + 4];
    NotPrefix(url, i, "<int>", 1);
    NotPrefix(url, i, "<uint>", 1);
    NotPrefix(url, i, "<float>", 1);
    NotPrefix(url, i, "<double>", 1);
    NotPrefix(url, i, "<str>", 4);
  }

  lemma RecordPattern()
    ensures Pattern(RECORD) == Lits(RECORDS) + [Par(STRING)] && WellFormed(RECORD)
  {
    var i := |RECORDS|;
    assert RECORD[0..i] == RECORDS && RECORD[i..i + 8] == "<string>";
    LiteralTokens(RECORD, 0, i);
    StringTag(RECORD, i);
    assert Tokens(RECORD, i + 8) == [];
    assert Tokens(RECORD, i) == [Par(STRING)] + [];
  }

  // ---------------------------------------------------------------- the tables

  /** What the four rules for GET and the one for POST mean. Only `/api/records/` ends in a slash. */
  function Entries(record: seq<Token>, records: string, stats: string, root: string): set<Rule>
    requires TrailingSlash(records)
  {
    {(record, 2)} + {(Lits(records), 3)} + {(Lits(WithoutSlash(records)), RULE_SPECIAL_REDIRECT_SLASH)}
    + {(Lits(stats), 4)} + {(Lits(root), 5)}
  }

  lemma FourRules(record: string, p: seq<Token>, records: string, stats: string, root: string)
    requires Pattern(record) == p && !TrailingSlash(record) && |p| == |records| + 1
    requires TrailingSlash(records) && !TrailingSlash(stats) && !TrailingSlash(root)
    requires '<' !in records && '<' !in stats && '<' !in root
    requires |root| + 1 < |records| && |records| + 1 < |stats|
    ensures EntriesOf([record, records, stats, root]) == Entries(p, records, stats, root)
    ensures NoClash([record, records, stats, root])
  {
    var l := [record, records, stats, root];
    LiteralPattern(records);
    LiteralPattern(WithoutSlash(records));
    LiteralPattern(stats);
    LiteralPattern(root);
    assert l[..0] == [] && l[..4] == l;
    EntriesStep(l, 0);
    EntriesStep(l, 1);
    EntriesStep(l, 2);
    EntriesStep(l, 3);
    assert Fits(l, 0) && Fits(l, 1) && Fits(l, 2) && Fits(l, 3);
  }

  lemma OneRule(record: string)
    requires !TrailingSlash(record)
    ensures EntriesOf([record]) == {(Pattern(record), 2)} && NoClash([record])
  {
    var l := [record];
    assert l[..0] == [] && l[..1] == l;
    EntriesStep(l, 0);
    assert Fits(l, 0);
  }

  // ---------------------------------------------------------------- a key's way to its handler

  lemma LiteralMatch(num: Numbers, s: string, url: string)
    ensures Match(num, Lits(s), url, 0, NO_PARAMS) == if url == s then Some(NO_PARAMS) else None
  {
    assert Lits(s) + [] == Lits(s);
    MatchKey(num, s, [], url, 0, NO_PARAMS);
    assert url[0..|url|] == url;
  }

  lemma SegmentMatch(num: Numbers, s: string, e: string)
    requires e != "" && '/' !in e
    ensures Match(num, Lits(s) + [Par(STRING)], s + e, 0, NO_PARAMS) == Some(Params([], [], [], [e]))
  {
    var url, n := s + e, |s|;
    MatchKey(num, s, [Par(STRING)], url, 0, NO_PARAMS);
    assert url[0..n] == s && url[n..] == e;
    forall i | n <= i < |url| ensures url[i] != '/' {
      assert url[i] == e[i - n];
    }
    assert SegmentEnd(url, n) == |url| && url[n..|url|] == e;
    assert NO_PARAMS.strings + [url[n..|url|]] == [e];
    assert Take(num, Par(STRING), url, n, NO_PARAMS) == Some(Taken(Params([], [], [], [e]), |url|));
    assert [Par(STRING)][0] == Par(STRING) && [Par(STRING)][1..] == [];
  }

  /** The rule is literal and for another URL. */
  ghost predicate Elsewhere(r: Rule, url: string) {
    exists o :: r.0 == Lits(o) && o != url
  }

  /** A URL that adds one segment to `s` is for the rule `s<string>`, with this segment as its parameter,
      when all the other rules are literal and different from the URL. */
  lemma SegmentSelected(num: Numbers, rules: set<Rule>, s: string, e: string, found: nat, params: Params)
    requires e != "" && '/' !in e && (Lits(s) + [Par(STRING)], 2) in rules
    requires forall r | r in rules && r != (Lits(s) + [Par(STRING)], 2) :: Elsewhere(r, s + e)
    requires Selects(num, rules, s + e, found, params)
    ensures found == 2 && params == Params([], [], [], [e])
  {
    SegmentMatch(num, s, e);
    forall r | r in rules && r != (Lits(s) + [Par(STRING)], 2) ensures Match(num, r.0, s + e, 0, NO_PARAMS) == None {
      var o :| r.0 == Lits(o) && o != s + e;
      LiteralMatch(num, o, s + e);
    }
  }

  lemma OthersDiffer(records: string, stats: string, root: string, e: string, p: seq<Token>)
    requires TrailingSlash(records) && e != "" && |root| < |records| && |stats| > 5 && |records| > 5
    requires records[5] != stats[5]
    ensures forall r | r in Entries(p, records, stats, root) && r != (p, 2) ::
              Elsewhere(r, records + e)
  {
    assert (records + e)[5] == records[5];
    assert stats != records + e && records != records + e && WithoutSlash(records) != records + e && root != records + e;
  }

  /** The rules of a method that serves records below `s`: the first is for one record, and no other one
      can match a record's URL. */
  ghost predicate ServesRecords(list: seq<string>, s: string, rules: set<Rule>) {
    && (forall r | r in list :: WellFormed(r) && FromRoot(r)) && NoClash(list) && rules == EntriesOf(list)
    && 0 < |list| <= 4 && (Lits(s) + [Par(STRING)], 2) in rules
    && (forall e, r | e != "" && r in rules && r != (Lits(s) + [Par(STRING)], 2) :: Elsewhere(r, s + e))
  }

  lemma GetServes(record: string, records: string, stats: string, root: string)
    requires Pattern(record) == Lits(records) + [Par(STRING)] && !TrailingSlash(record)
    requires WellFormed(record) && FromRoot(record) && FromRoot(records) && FromRoot(stats) && FromRoot(root)
    requires TrailingSlash(records) && !TrailingSlash(stats) && !TrailingSlash(root)
    requires '<' !in records && '<' !in stats && '<' !in root && '\0' !in records && '\0' !in stats && '\0' !in root
    requires |root| + 1 < |records| && |records| + 1 < |stats| && |records| > 5 && records[5] != stats[5]
    ensures ServesRecords([record, records, stats, root], records, Entries(Lits(records) + [Par(STRING)], records, stats, root))
  {
    LiteralPattern(records);
    LiteralPattern(stats);
    LiteralPattern(root);
    FourRules(record, Lits(records) + [Par(STRING)], records, stats, root);
    forall e | e != "" {
      OthersDiffer(records, stats, root, e, Lits(records) + [Par(STRING)]);
    }
  }

  lemma PostServes(record: string, records: string)
    requires Pattern(record) == Lits(records) + [Par(STRING)] && !TrailingSlash(record)
    requires WellFormed(record) && FromRoot(record)
    ensures ServesRecords([record], records, {(Pattern(record), 2)})
  {
    OneRule(record);
  }

  /** `setup_routing`, for GET and for POST. */
  method SetupRouting(post: bool) returns (list: seq<string>, ghost rules: set<Rule>)
    ensures ServesRecords(list, RECORDS, rules) && list[0] == RECORD
  {
    RecordPattern();
    if post {
      list, rules := [RECORD], {(Pattern(RECORD), 2)};
      PostServes(RECORD, RECORDS);
    } else {
      list, rules := [RECORD, RECORDS, READS, "/"], Entries(Lits(RECORDS) + [Par(STRING)], RECORDS, READS, "/");
      GetServes(RECORD, RECORDS, READS, "/");
    }
  }

  /** End to end: for every non-empty key and every percent-encoding of it, the server's routes for GET and
      for POST lead to the record handler, and decoding its parameter gives the key back. */
  method RecoverKey(num: Numbers, post: bool, ghost key: string, e: string) returns (rule: string, name: string)
    requires key != "" && Encodes(key, e)
    ensures rule == RECORD && name == key != ""
  {
    DecodeEncoded(key, e);
    var list, rules := SetupRouting(post);
    var m, ok := Build(list);
    var found, params := m.trie.FindUrl(num, RECORDS + e);
    SegmentSelected(num, rules, RECORDS, e, found, params);
    rule := m.rules[found].value;
    name := UrlDecode(params.strings[0]);
  }
}
