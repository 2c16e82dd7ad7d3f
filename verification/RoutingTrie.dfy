/** The routing trie (`Trie` in routing.h of Crow): nodes on the heap, changed in place by `add` and
    `optimizeNode`, and searched with backtracking by `find`.

    The ghost `Graph` of a trie records what its nodes hold, and for every node the path of tokens
    that leads to it and the one node that owns it. A trie means its rules: the rule indices that its
    nodes carry, each with the path of its node. */
module RoutingTrie {
  import opened Options
  import opened RoutingPatterns
  import opened RoutingCuts

  class Node {
    var rule: nat              // 0 when the node carries no rule
    var key: string
    var param: Option<Param>
    var children: seq<Node>
    ghost var alive: bool

    constructor ()
      ensures Holds(Cell(0, "", None, [])) && alive
    {
      rule, key, param, children, alive := 0, "", None, [], true;
    }

    ghost predicate Holds(cell: Cell)
      reads this
    {
      rule == cell.rule && key == cell.key && param == cell.param && children == cell.children
    }

    /** `key[0]`, which is NUL for an empty key. */
    function FirstChar(): char
      reads this
    {
      if key == "" then '\0' else key[0]
    }

    predicate IsSimpleNode()
      reads this, children
    {
      && rule == 0 && |children| < 2 && param == None
      && forall x | x in children :: x.param == None
    }

    /** A node can be deleted once. */
    ghost method Delete()
      requires alive
      modifies this`alive
      ensures !alive
    {
      alive := false;
    }
  }

  /** `routing_params`: shared by a whole search, and changed in place. */
  class RoutingParams {
    var ints: seq<int>
    var uints: seq<nat>
    var doubles: seq<real>
    var strings: seq<string>

    constructor ()
      ensures Value() == NO_PARAMS
    {
      ints, uints, doubles, strings := [], [], [], [];
    }

    function Value(): Params
      reads this
    {
      Params(ints, uints, doubles, strings)
    }
  }

  // ---------------------------------------------------------------- the ghost graph

  ghost function EdgeOf(key: string, param: Option<Param>): (tokens: seq<Token>)
    ensures param == None ==> |tokens| == |key|
  {
    match param
    case Some(p) => [Par(p)]
    case None => Lits(key)
  }

  datatype Cell = Cell(rule: nat, key: string, param: Option<Param>, children: seq<Node>) {
    /** What a search must take to enter this node. */
    ghost function Edge(): seq<Token> {
      EdgeOf(key, param)
    }
  }

  datatype Graph = Graph(head: Node, cells: map<Node, Cell>, path: map<Node, seq<Token>>, parent: map<Node, Node>)

  /** The child is owned by `n` alone and leads on from its path. */
  ghost predicate ChildOk(g: Graph, n: Node, c: Node) {
    && n in g.path && c in g.path && c in g.cells && c in g.parent && g.parent[c] == n
    && |g.cells[c].Edge()| > 0 && g.path[c] == g.path[n] + g.cells[c].Edge()
    && (g.cells[c].param.Some? ==> g.cells[c].key == "")
  }

  ghost function Start(g: Graph, c: Node): Option<Token> {
    if c in g.cells && g.cells[c].Edge() != [] then Some(g.cells[c].Edge()[0]) else None
  }

  /** No two children start with the same token. */
  ghost predicate StartsDiffer(g: Graph, children: seq<Node>) {
    forall i, j | 0 <= i < j < |children| :: Start(g, children[i]) != Start(g, children[j])
  }

  ghost predicate Owned(g: Graph, m: Node) {
    m in g.parent && g.parent[m] in g.cells && m in g.cells[g.parent[m]].children
  }

  ghost predicate SamePath(g: Graph, m: Node, n: Node) {
    m in g.path && n in g.path && g.path[m] == g.path[n]
  }

  /** The nodes form a tree under `head`, in which every other node is owned by exactly one. */
  ghost predicate Ok(g: Graph) {
    && g.head in g.cells && g.path.Keys == g.cells.Keys && g.path[g.head] == []
    && (forall n, c {:trigger ChildOk(g, n, c)} | n in g.cells && c in g.cells[n].children :: ChildOk(g, n, c))
    && (forall n {:trigger StartsDiffer(g, g.cells[n].children)} | n in g.cells :: StartsDiffer(g, g.cells[n].children))
    && (forall m {:trigger Owned(g, m)} | m in g.cells && m != g.head :: Owned(g, m))
    && (forall m, n {:trigger SamePath(g, m, n)} | m in g.cells && n in g.cells && SamePath(g, m, n) :: m == n)
  }

  /** Before `optimize`: every edge is one token. */
  ghost predicate Unoptimized(g: Graph) {
    && (forall n | n in g.cells && n != g.head :: |g.cells[n].Edge()| == 1)
    && (g.head in g.cells ==> g.cells[g.head].param == None)
  }

  ghost function Rules(g: Graph): set<Rule>
    requires g.path.Keys == g.cells.Keys
  {
    set n | n in g.cells && g.cells[n].rule != 0 :: (g.path[n], g.cells[n].rule)
  }

  lemma OwnerExtends(g: Graph, m: Node)
    requires Ok(g) && m in g.cells && m != g.head
    ensures Owned(g, m) && ChildOk(g, g.parent[m], m)
  {
    assert Owned(g, m);
  }

  /** Every other node lies below a child of the head. */
  lemma {:induction false} HeadHasChild(g: Graph, n: Node)
    requires Ok(g) && n in g.cells && g.path[n] != []
    ensures g.cells[g.head].children != []
    decreases |g.path[n]|
  {
    OwnerExtends(g, n);
    var p := g.parent[n];
    if g.path[p] == [] {
      assert SamePath(g, p, g.head);
    } else {
      HeadHasChild(g, p);
    }
  }

  lemma NotHead(g: Graph, n: Node, c: Node)
    requires Ok(g) && ChildOk(g, n, c)
    ensures c != g.head
  {
  }

  /** All nodes are old ones with their old paths, or lie on the path `p`. */
  ghost predicate OnlyAlong(g: Graph, g': Graph, p: seq<Token>) {
    forall n | n in g'.path :: (n in g.path && g'.path[n] == g.path[n]) || g'.path[n] <= p
  }

  lemma AlongMore(g: Graph, g': Graph, g'': Graph, p: seq<Token>, q: seq<Token>)
    requires OnlyAlong(g, g', p) && OnlyAlong(g', g'', q) && q <= p
    ensures OnlyAlong(g, g'', p)
  {
  }

  // ---------------------------------------------------------------- growing

  ghost function WithChild(g: Graph, at: Node, n: Node, cell: Cell): Graph
    requires at in g.cells && at in g.path
  {
    Graph(g.head,
          g.cells[at := g.cells[at].(children := g.cells[at].children + [n])][n := cell],
          g.path[n := g.path[at] + cell.Edge()],
          g.parent[n := at])
  }

  /** A child for a token that no child has yet stands for a path that no node has yet. */
  lemma NewPath(g: Graph, at: Node, edge: seq<Token>)
    requires Ok(g) && Unoptimized(g) && at in g.cells && |edge| == 1
    requires forall c | c in g.cells[at].children :: c in g.cells && g.cells[c].Edge() != edge
    ensures forall m | m in g.cells :: g.path[m] != g.path[at] + edge
  {
    forall m | m in g.cells && m != g.head ensures g.path[m] != g.path[at] + edge {
      OwnerExtends(g, m);
      var n, last := g.parent[m], |g.path[m]| - 1;
      assert Owned(g, m);
      assert g.path[m][..last] == g.path[n] && g.path[m][last..] == g.cells[m].Edge();
      assert (g.path[at] + edge)[..|g.path[at]|] == g.path[at] && (g.path[at] + edge)[|g.path[at]|..] == edge;
      assert n != at ==> !SamePath(g, n, at);
    }
  }

  /** `n` is a new node for a token that no child of `at` has yet. */
  ghost predicate FitsAt(g: Graph, at: Node, n: Node, cell: Cell) {
    && Ok(g) && Unoptimized(g) && at in g.cells && n !in g.cells
    && cell.children == [] && cell.rule == 0 && |cell.Edge()| == 1 && (cell.param.Some? ==> cell.key == "")
    && forall c | c in g.cells[at].children :: c in g.cells && g.cells[c].Edge() != cell.Edge()
  }

  lemma WithChildOk(g: Graph, at: Node, n: Node, cell: Cell)
    requires FitsAt(g, at, n, cell)
    ensures Ok(WithChild(g, at, n, cell)) && Unoptimized(WithChild(g, at, n, cell))
  {
    var g' := WithChild(g, at, n, cell);
    NewPath(g, at, cell.Edge());
    forall m, c | m in g'.cells && c in g'.cells[m].children ensures ChildOk(g', m, c) {
      WithChildEdges(g, at, n, cell, m, c);
    }
    forall m | m in g'.cells ensures StartsDiffer(g', g'.cells[m].children) {
      WithChildStarts(g, at, n, cell, m);
    }
    forall m | m in g'.cells && m != g'.head ensures Owned(g', m) {
      WithChildOwned(g, at, n, cell, m);
    }
    forall m, k | m in g'.cells && k in g'.cells && SamePath(g', m, k) ensures m == k {
      assert m != n && k != n ==> SamePath(g, m, k);
    }
  }

  lemma WithChildEdges(g: Graph, at: Node, n: Node, cell: Cell, m: Node, c: Node)
    requires FitsAt(g, at, n, cell)
    requires m in WithChild(g, at, n, cell).cells && c in WithChild(g, at, n, cell).cells[m].children
    ensures ChildOk(WithChild(g, at, n, cell), m, c)
  {
    if c != n || m != at {
      assert ChildOk(g, m, c);
    }
  }

  lemma WithChildOwned(g: Graph, at: Node, n: Node, cell: Cell, m: Node)
    requires FitsAt(g, at, n, cell) && m in WithChild(g, at, n, cell).cells && m != g.head
    ensures Owned(WithChild(g, at, n, cell), m)
  {
    var g' := WithChild(g, at, n, cell);
    if m == n {
      assert g'.cells[at].children[|g.cells[at].children|] == n;
    } else {
      assert Owned(g, m);
    }
  }

  lemma WithChildRules(g: Graph, at: Node, n: Node, cell: Cell)
    requires FitsAt(g, at, n, cell)
    ensures Rules(WithChild(g, at, n, cell)) == Rules(g)
  {
    var g' := WithChild(g, at, n, cell);
    forall m | m in g.cells ensures m in g'.cells && g'.path[m] == g.path[m] && g'.cells[m].rule == g.cells[m].rule {
    }
  }

  lemma WithChildStarts(g: Graph, at: Node, n: Node, cell: Cell, m: Node)
    requires FitsAt(g, at, n, cell)
    requires m in WithChild(g, at, n, cell).cells
    ensures StartsDiffer(WithChild(g, at, n, cell), WithChild(g, at, n, cell).cells[m].children)
  {
    var g' := WithChild(g, at, n, cell);
    if m != n {
      assert StartsDiffer(g, g.cells[m].children);
      forall c | c in g.cells[m].children ensures Start(g', c) == Start(g, c) && c != n {
        assert ChildOk(g, m, c);
      }
      forall c | c in g.cells[at].children ensures Start(g, c) != Some(cell.Edge()[0]) {
        assert ChildOk(g, at, c);
        assert c != g.head;
        assert g.cells[c].Edge() == [g.cells[c].Edge()[0]] && cell.Edge() == [cell.Edge()[0]];
      }
    }
  }

  /** A rule comes to a node that carries none. */
  ghost function WithRule(g: Graph, n: Node, rule: nat): Graph
    requires n in g.cells
  {
    g.(cells := g.cells[n := g.cells[n].(rule := rule)])
  }

  lemma WithRuleOk(g: Graph, n: Node, rule: nat)
    requires Ok(g) && Unoptimized(g) && n in g.cells && g.cells[n].rule == 0 && rule != 0
    ensures Ok(WithRule(g, n, rule)) && Unoptimized(WithRule(g, n, rule))
  {
    var g' := WithRule(g, n, rule);
    forall m, c | m in g'.cells && c in g'.cells[m].children ensures ChildOk(g', m, c) {
      assert ChildOk(g, m, c);
    }
    forall m | m in g'.cells ensures StartsDiffer(g', g'.cells[m].children) {
      assert StartsDiffer(g, g.cells[m].children);
      forall c | c in g.cells[m].children ensures Start(g', c) == Start(g, c) {
        assert ChildOk(g, m, c);
      }
    }
    forall m | m in g'.cells && m != g'.head ensures Owned(g', m) {
      assert Owned(g, m);
    }
    forall m, k | m in g'.cells && k in g'.cells && SamePath(g', m, k) ensures m == k {
      assert SamePath(g, m, k);
    }
  }

  lemma WithRuleRules(g: Graph, n: Node, rule: nat)
    requires g.path.Keys == g.cells.Keys && n in g.cells && g.cells[n].rule == 0 && rule != 0
    ensures Rules(WithRule(g, n, rule)) == Rules(g) + {(g.path[n], rule)}
  {
    var g' := WithRule(g, n, rule);
    assert g'.cells[n].rule == rule;
    forall m | m in g.cells && m != n ensures g'.cells[m].rule == g.cells[m].rule {
    }
    forall r | r in Rules(g) ensures r in Rules(g') {
      var m: Node :| m in g.cells && g.cells[m].rule != 0 && r == (g.path[m], g.cells[m].rule);
      assert m in g'.cells && g'.cells[m].rule != 0;
    }
  }

  // ---------------------------------------------------------------- searching

  ghost predicate Below(g: Graph, n: Node, m: Node) {
    n in g.path && m in g.path && g.path[n] <= g.path[m]
  }

  /** A node whose path goes on from `n`'s is in the subtree of one of `n`'s children. */
  lemma {:induction false} Descend(g: Graph, n: Node, m: Node) returns (c: Node)
    requires Ok(g) && n in g.cells && m in g.cells && Below(g, n, m) && m != n
    ensures c in g.cells[n].children && Below(g, c, m)
    decreases |g.path[n]| + |g.path[m]|
  {
    assert !SamePath(g, n, m);
    OwnerExtends(g, m);
    var p := g.parent[m];
    if p == n {
      c := m;
    } else if |g.path[n]| <= |g.path[p]| {
      c := Descend(g, n, p);
    } else {
      var d := Descend(g, p, n);
      assert ChildOk(g, p, d);
      assert Start(g, d) == Some(g.path[m][|g.path[p]|]) == Start(g, m);
      SameStart(g, p, d, m);
      c := m;
    }
  }

  lemma SameStart(g: Graph, n: Node, c: Node, d: Node)
    requires Ok(g) && n in g.cells && c in g.cells[n].children && d in g.cells[n].children
    requires Start(g, c) == Start(g, d)
    ensures c == d
  {
    assert StartsDiffer(g, g.cells[n].children);
  }

  /** What entering a node takes from the URL. */
  ghost function Enter(num: Numbers, cell: Cell, url: string, pos: nat, ps: Params): (r: Option<Taken>)
    requires pos < |url|
    ensures r.Some? ==> r.value.end <= |url|
  {
    match cell.param
    case Some(p) => Take(num, Par(p), url, pos, ps)
    case None => if PrefixAt(url, pos, cell.key) then Some(Taken(ps, pos + |cell.key|)) else None
  }

  /** The match of the rule that `m` carries, for a search that has come to `n` at `pos`. */
  ghost function MatchBelow(num: Numbers, g: Graph, n: Node, m: Node, url: string, pos: nat, ps: Params): Option<Params>
    requires pos <= |url|
  {
    if m in g.cells && g.cells[m].rule != 0 && Below(g, n, m)
    then Match(num, g.path[m][|g.path[n]|..], url, pos, ps) else None
  }

  lemma EnterChild(num: Numbers, g: Graph, n: Node, c: Node, m: Node, url: string, pos: nat, ps: Params)
    requires n in g.cells && ChildOk(g, n, c) && Below(g, c, m) && pos < |url|
    ensures MatchBelow(num, g, n, m, url, pos, ps)
            == match Enter(num, g.cells[c], url, pos, ps)
               case Some(t) => MatchBelow(num, g, c, m, url, t.end, t.params)
               case None => None
  {
    var edge, rest := g.cells[c].Edge(), g.path[m][|g.path[c]|..];
    assert g.path[m][|g.path[n]|..] == edge + rest;
    if g.cells[c].param == None {
      MatchKey(num, g.cells[c].key, rest, url, pos, ps);
    } else {
      assert (edge + rest)[1..] == rest;
    }
  }

  /** The smallest rule index in the subtree of `n` whose pattern matches the rest of the URL, with
      that pattern's parameters after `ps`, or 0 when there is none. */
  ghost predicate Best(num: Numbers, g: Graph, n: Node, url: string, pos: nat, ps: Params, found: nat, out: Params)
    requires pos <= |url|
  {
    && (forall m | m in g.cells && MatchBelow(num, g, n, m, url, pos, ps).Some? :: 0 < found <= g.cells[m].rule)
    && (found != 0 ==> exists m ::
          m in g.cells && g.cells[m].rule == found && MatchBelow(num, g, n, m, url, pos, ps) == Some(out))
  }

  ghost predicate BelowSome(g: Graph, children: seq<Node>, m: Node) {
    exists c :: c in children && Below(g, c, m)
  }

  /** The same, among the subtrees of some of the children. */
  ghost predicate BestAmong(num: Numbers, g: Graph, n: Node, children: seq<Node>, url: string, pos: nat, ps: Params,
                            found: nat, out: Params)
    requires pos <= |url|
  {
    && (forall m | m in g.cells && BelowSome(g, children, m) && MatchBelow(num, g, n, m, url, pos, ps).Some? ::
          0 < found <= g.cells[m].rule)
    && (found != 0 ==> exists m ::
          m in g.cells && g.cells[m].rule == found && MatchBelow(num, g, n, m, url, pos, ps) == Some(out))
  }

  /** What trying one child gives: nothing when it cannot be entered. */
  ghost predicate Tried(num: Numbers, g: Graph, c: Node, url: string, pos: nat, ps: Params, found: nat, out: Params)
    requires pos < |url| && c in g.cells
  {
    match Enter(num, g.cells[c], url, pos, ps)
    case Some(t) => Best(num, g, c, url, t.end, t.params, found, out)
    case None => found == 0
  }

  lemma BestAtEnd(num: Numbers, g: Graph, n: Node, url: string, ps: Params)
    requires Ok(g) && n in g.cells
    ensures Best(num, g, n, url, |url|, ps, g.cells[n].rule, ps)
  {
    forall m | m in g.cells && MatchBelow(num, g, n, m, url, |url|, ps).Some? ensures m == n {
      assert g.path[m][|g.path[n]|..] == [];
      assert SamePath(g, m, n);
    }
    if g.cells[n].rule != 0 {
      assert g.path[n][|g.path[n]|..] == [];
      assert MatchBelow(num, g, n, n, url, |url|, ps) == Some(ps);
    }
  }

  lemma BestOfAll(num: Numbers, g: Graph, n: Node, url: string, pos: nat, ps: Params, found: nat, out: Params)
    requires Ok(g) && n in g.cells && pos < |url|
    requires BestAmong(num, g, n, g.cells[n].children, url, pos, ps, found, out)
    ensures Best(num, g, n, url, pos, ps, found, out)
  {
    forall m | m in g.cells && MatchBelow(num, g, n, m, url, pos, ps).Some? ensures 0 < found <= g.cells[m].rule {
      if m != n {
        var c := Descend(g, n, m);
        assert BelowSome(g, g.cells[n].children, m);
      }
    }
  }

  /** `update_found` */
  lemma BestOfMore(num: Numbers, g: Graph, n: Node, i: nat, url: string, pos: nat, ps: Params,
                   found: nat, out: Params, r: nat, rOut: Params)
    requires Ok(g) && n in g.cells && pos < |url| && i < |g.cells[n].children|
    requires BestAmong(num, g, n, g.cells[n].children[..i], url, pos, ps, found, out)
    requires ChildOk(g, n, g.cells[n].children[i])
    requires Tried(num, g, g.cells[n].children[i], url, pos, ps, r, rOut)
    ensures var better := r != 0 && (found == 0 || found > r);
            BestAmong(num, g, n, g.cells[n].children[..i + 1], url, pos, ps,
                      if better then r else found, if better then rOut else out)
  {
    var c, done := g.cells[n].children[i], g.cells[n].children[..i];
    forall m | m in g.cells && BelowSome(g, g.cells[n].children[..i + 1], m)
      && MatchBelow(num, g, n, m, url, pos, ps).Some?
      ensures BelowSome(g, done, m) || 0 < r <= g.cells[m].rule
    {
      if !BelowSome(g, done, m) {
        OnlyInLast(g, g.cells[n].children, i, m);
        NoneBetter(num, g, n, c, m, url, pos, ps, r, rOut);
      }
    }
    if r != 0 {
      BestOfChild(num, g, n, c, url, pos, ps, r, rOut);
    }
  }

  lemma OnlyInLast(g: Graph, children: seq<Node>, i: nat, m: Node)
    requires i < |children| && BelowSome(g, children[..i + 1], m) && !BelowSome(g, children[..i], m)
    ensures Below(g, children[i], m)
  {
    var d :| d in children[..i + 1] && Below(g, d, m);
    assert d in children[..i] || d == children[i];
  }

  lemma NoneBetter(num: Numbers, g: Graph, n: Node, c: Node, m: Node, url: string, pos: nat, ps: Params, r: nat, rOut: Params)
    requires n in g.cells && pos < |url| && ChildOk(g, n, c) && Tried(num, g, c, url, pos, ps, r, rOut)
    requires m in g.cells && Below(g, c, m) && MatchBelow(num, g, n, m, url, pos, ps).Some?
    ensures 0 < r <= g.cells[m].rule
  {
    EnterChild(num, g, n, c, m, url, pos, ps);
  }

  lemma BestOfChild(num: Numbers, g: Graph, n: Node, c: Node, url: string, pos: nat, ps: Params, r: nat, rOut: Params)
    requires n in g.cells && pos < |url| && ChildOk(g, n, c)
    requires r != 0 && Tried(num, g, c, url, pos, ps, r, rOut)
    ensures exists m :: m in g.cells && g.cells[m].rule == r && MatchBelow(num, g, n, m, url, pos, ps) == Some(rOut)
  {
    var t := Enter(num, g.cells[c], url, pos, ps).value;
    var m :| m in g.cells && g.cells[m].rule == r && MatchBelow(num, g, c, m, url, t.end, t.params) == Some(rOut);
    EnterChild(num, g, n, c, m, url, pos, ps);
  }

  lemma BestFromHead(num: Numbers, g: Graph, url: string, found: nat, out: Params)
    requires Ok(g) && Best(num, g, g.head, url, 0, NO_PARAMS, found, out)
    ensures Selects(num, Rules(g), url, found, out)
  {
    forall m | m in g.cells && g.cells[m].rule != 0
      ensures MatchBelow(num, g, g.head, m, url, 0, NO_PARAMS) == Match(num, g.path[m], url, 0, NO_PARAMS)
      ensures (g.path[m], g.cells[m].rule) in Rules(g)
    {
      assert g.path[m][0..] == g.path[m];
    }
    if found != 0 {
      var m :| m in g.cells && g.cells[m].rule == found && MatchBelow(num, g, g.head, m, url, 0, NO_PARAMS) == Some(out);
      assert (g.path[m], found) in Rules(g);
    }
  }

  // ---------------------------------------------------------------- path compression

  ghost predicate HeadSimple(g: Graph)
    requires g.head in g.cells
  {
    var h := g.cells[g.head];
    && h.rule == 0 && |h.children| < 2 && h.param == None
    && forall c | c in h.children :: c in g.cells && g.cells[c].param == None
  }

  /** Every path begins with a slash. */
  ghost predicate Rooted(g: Graph) {
    forall n | n in g.path && g.path[n] != [] :: g.path[n][0] == Lit('/')
  }

  lemma RootedAlong(g: Graph, g': Graph, p: seq<Token>)
    requires Rooted(g) && OnlyAlong(g, g', p) && (p == [] || p[0] == Lit('/'))
    ensures Rooted(g')
  {
  }

  ghost predicate Carried(rules: set<Rule>, p: seq<Token>) {
    exists r :: r in rules && p <= r.0
  }

  /** Every node but the head is on the way to a rule. */
  ghost predicate Fruitful(g: Graph)
    requires g.path.Keys == g.cells.Keys
  {
    forall n {:trigger Carried(Rules(g), g.path[n])} | n in g.path && g.path[n] != [] :: Carried(Rules(g), g.path[n])
  }

  lemma FruitfulAlong(g: Graph, g': Graph, p: seq<Token>)
    requires Ok(g) && Ok(g') && Fruitful(g) && OnlyAlong(g, g', p) && Rules(g) <= Rules(g') && Has(Rules(g'), p)
    ensures Fruitful(g')
  {
    forall n | n in g'.path && g'.path[n] != [] ensures Carried(Rules(g'), g'.path[n]) {
      if n in g.path && g'.path[n] == g.path[n] {
        assert Carried(Rules(g), g.path[n]);
      } else {
        var r :| r in Rules(g') && r.0 == p;
        assert g'.path[n] <= r.0;
      }
    }
  }

  /** No path is new. */
  ghost predicate FewerPaths(g: Graph, g': Graph) {
    forall m {:trigger LeadsTo(g, g'.path[m])} | m in g'.path :: LeadsTo(g, g'.path[m])
  }

  ghost predicate LeadsTo(g: Graph, p: seq<Token>) {
    exists n :: n in g.path && g.path[n] == p
  }

  lemma FruitfulFewer(g: Graph, g': Graph)
    requires Ok(g) && Ok(g') && Fruitful(g) && FewerPaths(g, g') && Rules(g') == Rules(g)
    ensures Fruitful(g')
  {
    forall m | m in g'.path && g'.path[m] != [] ensures Carried(Rules(g'), g'.path[m]) {
      assert LeadsTo(g, g'.path[m]);
      var n :| n in g.path && g.path[n] == g'.path[m];
      assert Carried(Rules(g), g.path[n]);
    }
  }

  /** When every node leads to a rule, the head has a child exactly when there is a rule below it. */
  lemma ChildrenMeanRules(g: Graph)
    requires Ok(g) && Fruitful(g)
    ensures g.cells[g.head].children != [] <==> exists r :: r in Rules(g) && r.0 != []
  {
    if g.cells[g.head].children != [] {
      var c := g.cells[g.head].children[0];
      assert ChildOk(g, g.head, c);
      assert Carried(Rules(g), g.path[c]);
    } else if r :| r in Rules(g) && r.0 != [] {
      var n: Node :| n in g.cells && g.cells[n].rule != 0 && r == (g.path[n], g.cells[n].rule);
      HeadHasChild(g, n);
    }
  }

  /** When every rule begins with a slash, the head is simple. */
  lemma RootedHeadIsSimple(g: Graph)
    requires Ok(g) && Unoptimized(g) && Rooted(g) && !Has(Rules(g), [])
    ensures HeadSimple(g)
  {
    var h := g.cells[g.head];
    NodeRule(g, g.head);
    forall c | c in h.children ensures c in g.cells && g.cells[c].param == None && Start(g, c) == Some(Lit('/')) {
      assert ChildOk(g, g.head, c);
      assert g.path[c] == g.cells[c].Edge();
    }
    assert StartsDiffer(g, h.children);
    if |h.children| >= 2 {
      TwoAlike(g, h.children, Some(Lit('/')));
    }
  }

  lemma TwoAlike(g: Graph, children: seq<Node>, t: Option<Token>)
    requires |children| >= 2 && forall c | c in children :: Start(g, c) == t
    ensures !StartsDiffer(g, children)
  {
    assert Start(g, children[0]) == Start(g, children[1]);
  }

  ghost predicate Simple(g: Graph, n: Node) {
    && n in g.cells && g.cells[n].rule == 0 && g.cells[n].param == None && |g.cells[n].children| == 1
    && g.cells[n].children[0] in g.cells && g.cells[g.cells[n].children[0]].param == None
  }

  /** The node takes over everything of its only child, and the child goes. */
  ghost function Merged(g: Graph, n: Node): Graph
    requires Simple(g, n) && g.cells[n].children[0] in g.path
  {
    var c := g.cells[n].children[0];
    Graph(g.head,
          g.cells[n := Cell(g.cells[c].rule, g.cells[n].key + g.cells[c].key, None, g.cells[c].children)] - {c},
          g.path[n := g.path[c]] - {c},
          map m | m in g.parent :: if g.parent[m] == c then n else g.parent[m])
  }

  lemma MergedEdges(g: Graph, n: Node, m: Node, d: Node)
    requires Ok(g) && Simple(g, n) && n != g.head
    requires ChildOk(g, n, g.cells[n].children[0])
    requires m in Merged(g, n).cells && d in Merged(g, n).cells[m].children
    ensures ChildOk(Merged(g, n), m, d)
    ensures Start(Merged(g, n), d) == Start(g, d)
  {
    var c := g.cells[n].children[0];
    if m == n {
      assert ChildOk(g, c, d);
    } else {
      assert ChildOk(g, m, d);
      if d == n {
        assert Lits(g.cells[n].key + g.cells[c].key) == Lits(g.cells[n].key) + Lits(g.cells[c].key);
      }
    }
  }

  lemma MergedOwned(g: Graph, n: Node, m: Node)
    requires Ok(g) && Simple(g, n) && n != g.head
    requires ChildOk(g, n, g.cells[n].children[0])
    requires m in Merged(g, n).cells && m != g.head
    ensures Owned(Merged(g, n), m)
  {
    assert Owned(g, m);
  }

  lemma MergedOk(g: Graph, n: Node)
    requires Ok(g) && Simple(g, n) && n != g.head
    requires ChildOk(g, n, g.cells[n].children[0])
    ensures Ok(Merged(g, n))
  {
    var g', c := Merged(g, n), g.cells[n].children[0];
    assert c != n;
    NotHead(g, n, c);
    forall m, d | m in g'.cells && d in g'.cells[m].children ensures ChildOk(g', m, d) {
      MergedEdges(g, n, m, d);
    }
    forall m | m in g'.cells ensures StartsDiffer(g', g'.cells[m].children) {
      assert StartsDiffer(g, g.cells[if m == n then c else m].children);
      forall d | d in g'.cells[m].children ensures Start(g', d) == Start(g, d) {
        MergedEdges(g, n, m, d);
      }
    }
    forall m | m in g'.cells && m != g'.head ensures Owned(g', m) {
      MergedOwned(g, n, m);
    }
    forall m, k | m in g'.cells && k in g'.cells && SamePath(g', m, k) ensures m == k {
      assert SamePath(g, if m == n then c else m, if k == n then c else k);
    }
  }

  lemma MergedRules(g: Graph, n: Node)
    requires Ok(g) && Simple(g, n)
    requires ChildOk(g, n, g.cells[n].children[0])
    ensures Merged(g, n).path.Keys == Merged(g, n).cells.Keys && Rules(Merged(g, n)) == Rules(g)
  {
    var g', c := Merged(g, n), g.cells[n].children[0];
    assert c != n && g'.cells[n].rule == g.cells[c].rule && g'.path[n] == g.path[c];
    forall m | m in g.cells && m != n && m != c
      ensures m in g'.cells && g'.cells[m].rule == g.cells[m].rule && g'.path[m] == g.path[m]
    {
    }
    forall r | r in Rules(g) ensures r in Rules(g') {
      var m: Node :| m in g.cells && g.cells[m].rule != 0 && r == (g.path[m], g.cells[m].rule);
      var m' := if m == c then n else m;
      assert m' in g'.cells && g'.cells[m'].rule != 0 && r == (g'.path[m'], g'.cells[m'].rule);
    }
    forall r | r in Rules(g') ensures r in Rules(g) {
      var m: Node :| m in g'.cells && g'.cells[m].rule != 0 && r == (g'.path[m], g'.cells[m].rule);
      var m' := if m == n then c else m;
      assert m' in g.cells && g.cells[m'].rule != 0 && r == (g.path[m'], g.cells[m'].rule);
    }
  }

  lemma {:induction false} LongestPath(path: map<Node, seq<Token>>) returns (most: nat)
    ensures forall m | m in path :: |path[m]| <= most
    decreases |path|
  {
    if path == map[] {
      most := 0;
    } else {
      var m :| m in path;
      var rest := LongestPath(path - {m});
      assert forall k | k in path && k != m :: k in path - {m};
      most := if |path[m]| > rest then |path[m]| else rest;
    }
  }

  ghost predicate Bounded(g: Graph, most: nat) {
    forall m | m in g.path :: |g.path[m]| <= most
  }

  /** Outside the subtree of `n` nothing has changed. */
  ghost predicate Untouched(g: Graph, g': Graph, n: Node) {
    forall m | m in g.cells && !Below(g, n, m) && m in g.path ::
      m in g'.cells && m in g'.path && g'.cells[m] == g.cells[m] && g'.path[m] == g.path[m]
  }

  /** What path compression below `n` may have done to the graph. */
  ghost predicate Compressed(g: Graph, g': Graph, n: Node, most: nat) {
    && Ok(g') && g'.head == g.head && g'.cells.Keys <= g.cells.Keys && n in g'.cells
    && Bounded(g', most) && Untouched(g, g', n) && FewerPaths(g, g')
  }

  lemma MergedCompressed(g: Graph, n: Node, most: nat)
    requires Ok(g) && Simple(g, n) && n != g.head && Bounded(g, most)
    requires ChildOk(g, n, g.cells[n].children[0])
    ensures Compressed(g, Merged(g, n), n, most)
    ensures |g.path[n]| < |Merged(g, n).path[n]| <= most && g.path[n] <= Merged(g, n).path[n]
    ensures Merged(g, n).cells.Keys == g.cells.Keys - {g.cells[n].children[0]}
    ensures Rules(Merged(g, n)) == Rules(g)
  {
    var c := g.cells[n].children[0];
    assert Below(g, n, c) && Below(g, n, n);
    MergedOk(g, n);
    MergedRules(g, n);
    MergedPaths(g, n);
  }

  lemma MergedPaths(g: Graph, n: Node)
    requires Ok(g) && Simple(g, n) && ChildOk(g, n, g.cells[n].children[0])
    ensures FewerPaths(g, Merged(g, n))
  {
    var g' := Merged(g, n);
    forall m | m in g'.path ensures LeadsTo(g, g'.path[m]) {
      assert g'.path[m] == g.path[if m == n then g.cells[n].children[0] else m];
    }
  }

  lemma MergedCells(g: Graph, n: Node)
    requires Ok(g) && Simple(g, n)
    requires ChildOk(g, n, g.cells[n].children[0])
    ensures var c := g.cells[n].children[0];
            && c in g.cells && c != n && g.cells[n].param == None && Merged(g, n).head == g.head
            && Merged(g, n).cells
               == g.cells[n := Cell(g.cells[c].rule, g.cells[n].key + g.cells[c].key, None, g.cells[c].children)] - {c}
  {
  }

  lemma FewerPathsMore(g: Graph, g1: Graph, g2: Graph)
    requires FewerPaths(g, g1) && FewerPaths(g1, g2)
    ensures FewerPaths(g, g2)
  {
    forall m | m in g2.path ensures LeadsTo(g, g2.path[m]) {
      assert LeadsTo(g1, g2.path[m]);
      var n :| n in g1.path && g1.path[n] == g2.path[m];
      assert LeadsTo(g, g1.path[n]);
    }
  }

  lemma CompressedMore(g: Graph, g1: Graph, g2: Graph, n: Node, most: nat)
    requires Compressed(g, g1, n, most) && Compressed(g1, g2, n, most)
    requires n in g.path && g.path[n] <= g1.path[n]
    ensures Compressed(g, g2, n, most)
  {
    FewerPathsMore(g, g1, g2);
    forall m | m in g.cells && !Below(g, n, m) && m in g.path
      ensures m in g1.cells && !Below(g1, n, m)
    {
    }
  }

  /** Compressing below a child of `n` leaves `n` itself alone. */
  lemma CompressedChild(g: Graph, g1: Graph, g2: Graph, n: Node, c: Node, most: nat)
    requires Compressed(g, g1, n, most) && Compressed(g1, g2, c, most)
    requires n in g.cells && n in g.path && g1.cells[n] == g.cells[n] && g1.path[n] == g.path[n]
    requires ChildOk(g1, n, c)
    ensures Compressed(g, g2, n, most) && g2.cells[n] == g.cells[n] && g2.path[n] == g.path[n]
  {
    assert !Below(g1, c, n);
    FewerPathsMore(g, g1, g2);
    forall m | m in g.cells && !Below(g, n, m) && m in g.path
      ensures m in g1.cells && m in g1.path && !Below(g1, c, m)
    {
    }
  }

  // ---------------------------------------------------------------- the trie

  ghost predicate Mirrors(cells: map<Node, Cell>)
    reads cells.Keys
  {
    forall n | n in cells :: n.alive && n.Holds(cells[n])
  }

  /** `new_node` */
  method CreateChild(ghost cells: map<Node, Cell>, at: Node, key: string, param: Option<Param>) returns (n: Node)
    requires Mirrors(cells) && at in cells
    modifies at
    ensures fresh(n)
    ensures Mirrors(cells[at := cells[at].(children := cells[at].children + [n])][n := Cell(0, key, param, [])])
  {
    n := new Node();
    n.key, n.param := key, param;
    at.children := at.children + [n];
  }

  /** The simple case of `optimizeNode` on the heap. */
  method TakeOver(ghost cells: map<Node, Cell>, node: Node, child: Node)
    requires Mirrors(cells) && node in cells && child in cells && node != child && node.param == None
    modifies node, child
    ensures !child.alive
    ensures Mirrors(cells[node := Cell(cells[child].rule, cells[node].key + cells[child].key, None, cells[child].children)] - {child})
  {
    node.key := node.key + child.key;
    node.rule := child.rule;
    node.children := child.children;
    child.Delete();
  }

  /** The nodes that a graph has given up are deleted. */
  ghost predicate Deleted(g: Graph, g': Graph)
    reads g.cells.Keys
  {
    forall m | m in g.cells && m !in g'.cells :: !m.alive
  }

  class Trie {
    const head: Node
    ghost var graph: Graph

    /** The heap holds exactly the ghost graph. */
    ghost predicate Valid()
      reads this, graph.cells.Keys
    {
      graph.head == head && Ok(graph) && Mirrors(graph.cells)
    }

    ghost function TheRules(): set<Rule>
      requires Valid()
      reads this, graph.cells.Keys
    {
      Rules(graph)
    }

    constructor ()
      ensures Valid() && Unoptimized(graph) && Rooted(graph) && Fruitful(graph) && TheRules() == {} && fresh(graph.cells.Keys)
    {
      head := new Node();
      graph := Graph(head, map[head := Cell(0, "", None, [])], map[head := []], map[]);
    }

    // ------------------------------------------------------------ add

    method NewNode(at: Node, key: string, param: Option<Param>) returns (n: Node)
      requires Valid() && Unoptimized(graph) && at in graph.cells
      requires if param.Some? then key == "" else |key| == 1
      requires forall c | c in graph.cells[at].children :: c in graph.cells && graph.cells[c].Edge() != EdgeOf(key, param)
      modifies this, at
      ensures Extended(old(graph.path[at]) + EdgeOf(key, param)) && fresh(n)
      ensures graph == WithChild(old(graph), at, n, Cell(0, key, param, []))
    {
      n := CreateChild(graph.cells, at, key, param);
      WithChildOk(graph, at, n, Cell(0, key, param, []));
      WithChildRules(graph, at, n, Cell(0, key, param, []));
      graph := WithChild(graph, at, n, Cell(0, key, param, []));
    }

    /** The loop of `add` over the children, looking for a parameter. */
    method FindParam(at: Node, p: Param) returns (found: bool, child: Node)
      requires Valid() && at in graph.cells
      ensures found ==> child in at.children && child.param == Some(p)
      ensures !found ==> forall c | c in at.children :: c.param != Some(p)
    {
      found, child := false, at;
      var i := 0;
      while i < |at.children|
        invariant 0 <= i <= |at.children|
        invariant forall k | 0 <= k < i :: at.children[k].param != Some(p)
      {
        assert ChildOk(graph, at, at.children[i]);
        if at.children[i].param == Some(p) {
          return true, at.children[i];
        }
        i := i + 1;
      }
    }

    method FindChar(at: Node, c: char) returns (found: bool, child: Node)
      requires Valid() && at in graph.cells
      ensures found ==> child in at.children && child.FirstChar() == c
      ensures !found ==> forall d | d in at.children :: d.FirstChar() != c
    {
      found, child := false, at;
      var i := 0;
      while i < |at.children|
        invariant 0 <= i <= |at.children|
        invariant forall k | 0 <= k < i :: at.children[k].FirstChar() != c
      {
        if at.children[i].FirstChar() == c {
          return true, at.children[i];
        }
        i := i + 1;
      }
    }

    /** Goes to the child for a parameter, and creates it when there is none. */
    method StepParam(at: Node, p: Param) returns (idx: Node)
      requires Valid() && Unoptimized(graph) && at in graph.cells
      modifies this, at
      ensures Extended(old(graph.path[at]) + [Par(p)])
      ensures idx in graph.cells && graph.path[idx] == old(graph.path[at]) + [Par(p)]
    {
      var found, child := FindParam(at, p);
      forall c | c in graph.cells[at].children
        ensures ChildOk(graph, at, c) && c.Holds(graph.cells[c])
        ensures graph.cells[c].Edge() == [Par(p)] <==> c.param == Some(p)
      {
        assert ChildOk(graph, at, c);
        NotHead(graph, at, c);
        assert c.param == None ==> graph.cells[c].Edge()[0] == Lit(c.key[0]);
      }
      if found {
        idx := child;
      } else {
        idx := NewNode(at, "", Some(p));
      }
    }

    /** Goes to the child for a character, and creates it when there is none. A parameter's node has an
        empty key, whose first character is NUL: patterns must not contain that. */
    method StepChar(at: Node, c: char) returns (idx: Node)
      requires Valid() && Unoptimized(graph) && at in graph.cells && c != '\0'
      modifies this, at
      ensures Extended(old(graph.path[at]) + [Lit(c)])
      ensures idx in graph.cells && graph.path[idx] == old(graph.path[at]) + [Lit(c)]
    {
      var found, child := FindChar(at, c);
      forall d | d in graph.cells[at].children
        ensures ChildOk(graph, at, d) && d.Holds(graph.cells[d])
        ensures graph.cells[d].Edge() == [Lit(c)] <==> d.FirstChar() == c
      {
        assert ChildOk(graph, at, d);
        NotHead(graph, at, d);
      }
      if found {
        idx := child;
      } else {
        idx := NewNode(at, [c], None);
        assert EdgeOf([c], None) == [Lit(c)];
      }
    }

    /** Nodes are only added, along this path, and the rules stay the same. */
    twostate predicate Extended(p: seq<Token>)
      requires old(Valid())
      reads this, graph.cells.Keys
    {
      Valid() && Unoptimized(graph) && Grown() && TheRules() == old(TheRules()) && OnlyAlong(old(graph), graph, p)
    }

    /** Nodes are only added. */
    twostate predicate Grown()
      reads this
    {
      && (forall n | n in old(graph.cells) :: n in graph.cells)
      && (forall n | n in graph.cells && n !in old(graph.cells) :: fresh(n))
    }

    /** Adds a rule, unless the trie already has one for this pattern; then it stays as it is. */
    method Add(url: string, ruleIndex: nat) returns (ok: bool)
      requires Valid() && Unoptimized(graph) && WellFormed(url) && ruleIndex != 0
      modifies this, graph.cells.Keys
      ensures Valid() && Unoptimized(graph) && Grown()
      ensures ok <==> !Has(old(TheRules()), Pattern(url))
      ensures OnlyAlong(old(graph), graph, Pattern(url))
      ensures old(Fruitful(graph)) ==> Fruitful(graph)
      ensures TheRules() == if ok then old(TheRules()) + {(Pattern(url), ruleIndex)} else old(TheRules())
    {
      var idx := WalkTo(url);
      NodeRule(graph, idx);
      ok := idx.rule == 0;
      if ok {
        SetRule(idx, ruleIndex);
      }
      if Fruitful(old(graph)) {
        FruitfulAlong(old(graph), graph, Pattern(url));
      }
    }

    method SetRule(idx: Node, ruleIndex: nat)
      requires Valid() && Unoptimized(graph) && idx in graph.cells && idx.rule == 0 && ruleIndex != 0
      modifies this, idx`rule
      ensures Valid() && Unoptimized(graph) && graph.path == old(graph.path)
      ensures TheRules() == old(TheRules()) + {(old(graph.path[idx]), ruleIndex)}
    {
      WithRuleOk(graph, idx, ruleIndex);
      WithRuleRules(graph, idx, ruleIndex);
      idx.rule := ruleIndex;
      graph := WithRule(graph, idx, ruleIndex);
    }

    /** The loop of `add`: goes along the pattern, creating nodes where there are none. */
    method WalkTo(url: string) returns (idx: Node)
      requires Valid() && Unoptimized(graph) && WellFormed(url)
      modifies this, graph.cells.Keys
      ensures Valid() && Unoptimized(graph) && Grown() && TheRules() == old(TheRules())
      ensures idx in graph.cells && graph.path[idx] == Pattern(url) && OnlyAlong(old(graph), graph, Pattern(url))
    {
      idx := head;
      var i := 0;
      while i < |url|
        invariant Valid() && Unoptimized(graph) && Grown() && TheRules() == old(TheRules())
        invariant i <= |url| && idx in graph.cells && ReadTo(url, i, graph.path[idx])
        invariant OnlyAlong(old(graph), graph, Pattern(url))
      {
        ghost var g := graph;
        idx, i := Step(url, i, idx);
        AlongMore(old(graph), g, graph, Pattern(url), graph.path[idx]);
      }
    }

    method Step(url: string, i: nat, at: Node) returns (idx: Node, next: nat)
      requires Valid() && Unoptimized(graph) && i < |url| && at in graph.cells && ReadTo(url, i, graph.path[at])
      modifies this, at
      ensures i < next <= |url| && idx in graph.path && ReadTo(url, next, graph.path[idx])
      ensures idx in graph.cells && Extended(graph.path[idx])
    {
      var c := url[i];
      ghost var t, end := Along(url, i, graph.path[at]);
      if c == '<' {
        var (p, length) := TagAt(url, i).value;
        next := i + length;
        idx := StepParam(at, p);
      } else {
        next := i + 1;
        idx := StepChar(at, c);
      }
      assert next == end && graph.path[idx] == old(graph.path[at]) + [t];
    }

    // ------------------------------------------------------------ optimize

    /** Only paths below `node` have changed since the graph was `g`, the rules are the same, and the
        nodes that were given up are deleted. */
    ghost predicate Shrunk(g: Graph, node: Node, most: nat)
      reads this, graph.cells.Keys, g.cells.Keys
    {
      && Valid() && g.path.Keys == g.cells.Keys && TheRules() == Rules(g) && Compressed(g, graph, node, most)
      && Deleted(g, graph)
    }

    /** Compresses the paths below `node`: the rules stay the same, and every node that is given up has
        been deleted, once. It ends because the path of `node` gets longer with every call. */
    method OptimizeNode(node: Node, ghost most: nat)
      requires Valid() && node in graph.cells && node != head && Bounded(graph, most)
      modifies this, graph.cells.Keys
      ensures Shrunk(old(graph), node, most)
      decreases most - |graph.path[node]|
    {
      if |node.children| == 0 {
        return;
      }
      assert ChildOk(graph, node, node.children[0]);
      if node.IsSimpleNode() {
        assert node.children[0] in node.children;
        Merge(node, most);
        ghost var g1 := graph;
        OptimizeNode(node, most);
        CompressedMore(old(graph), g1, graph, node, most);
      } else {
        OptimizeChildren(node, most);
      }
    }

    lemma MergedShrunk(g: Graph, n: Node, most: nat, g': Graph)
      requires Ok(g) && Simple(g, n) && n != g.head && Bounded(g, most) && ChildOk(g, n, g.cells[n].children[0])
      requires g.head == head && graph == g' == Merged(g, n) && Mirrors(g'.cells) && !g.cells[n].children[0].alive
      ensures Shrunk(g, n, most)
      ensures |g.path[n]| < |g'.path[n]| <= most && g.path[n] <= g'.path[n]
    {
      MergedCompressed(g, n, most);
    }

    /** The simple case: `node` takes over its only child, which is deleted. */
    method Merge(node: Node, ghost most: nat)
      requires Valid() && node in graph.cells && node != head && Bounded(graph, most)
      requires Simple(graph, node) && ChildOk(graph, node, graph.cells[node].children[0])
      modifies this, graph.cells.Keys
      ensures Shrunk(old(graph), node, most)
      ensures old(|graph.path[node]|) < |graph.path[node]| <= most && old(graph.path[node]) <= graph.path[node]
    {
      var child := node.children[0];
      ghost var g, g' := graph, Merged(graph, node);
      MergedCells(g, node);
      TakeOver(g.cells, node, child);
      graph := g';
      MergedShrunk(g, node, most, g');
    }

    method OptimizeChildren(node: Node, ghost most: nat)
      requires Valid() && node in graph.cells && Bounded(graph, most)
      modifies this, graph.cells.Keys
      ensures Shrunk(old(graph), node, most)
      decreases most - |graph.path[node]|, 0
    {
      var i := 0;
      while i < |node.children|
        invariant i <= |node.children| && Shrunk(old(graph), node, most)
        invariant graph.cells[node] == old(graph.cells[node]) && graph.path[node] == old(graph.path[node])
      {
        ghost var g1 := graph;
        var child := node.children[i];
        assert ChildOk(graph, node, child);
        NotHead(graph, node, child);
        OptimizeNode(child, most);
        CompressedChild(old(graph), g1, graph, node, child, most);
        i := i + 1;
      }
    }

    /** `validate`: an error when the head is not simple, and `optimize` otherwise. A search gives the
        same answer before and after: it depends on the rules only. */
    method Validate() returns (ok: bool)
      requires Valid()
      modifies this, graph.cells.Keys
      ensures Valid() && TheRules() == old(TheRules())
      ensures ok <==> HeadSimple(old(graph))
      ensures !ok ==> graph == old(graph)
      ensures old(Fruitful(graph)) ==> Fruitful(graph)
      ensures forall m | m in old(graph).cells && m !in graph.cells :: !m.alive
    {
      forall c | c in head.children ensures c in graph.cells && c.param == graph.cells[c].param {
        assert ChildOk(graph, head, c);
      }
      ok := head.IsSimpleNode();
      if ok {
        ghost var most := LongestPath(graph.path);
        OptimizeChildren(head, most);
        if Fruitful(old(graph)) {
          FruitfulFewer(old(graph), graph);
        }
      }
    }

    // ------------------------------------------------------------ find

    /** The search below `node` for the URL from `pos` on, with the parameters taken so far in
        `params`. They are pushed before and popped after every recursive call. */
    method Find(num: Numbers, url: string, node: Node, pos: nat, params: RoutingParams)
      returns (found: nat, matchParams: Params)
      requires Valid() && node in graph.cells && pos <= |url|
      modifies params
      ensures params.Value() == old(params.Value())
      ensures Best(num, graph, node, url, pos, old(params.Value()), found, matchParams)
      decreases |url| - pos, 2
    {
      if pos == |url| {
        BestAtEnd(num, graph, node, url, params.Value());
        return node.rule, params.Value();
      }
      found, matchParams := 0, NO_PARAMS;
      var i := 0;
      while i < |node.children|
        invariant i <= |node.children| && params.Value() == old(params.Value())
        invariant BestAmong(num, graph, node, node.children[..i], url, pos, old(params.Value()), found, matchParams)
      {
        var child := node.children[i];
        assert ChildOk(graph, node, child);
        var r, rParams := FindChild(num, url, child, pos, params);
        BestOfMore(num, graph, node, i, url, pos, old(params.Value()), found, matchParams, r, rParams);
        if r != 0 && (found == 0 || found > r) {
          found, matchParams := r, rParams;
        }
        i := i + 1;
      }
      assert node.children[..i] == graph.cells[node].children;
      BestOfAll(num, graph, node, url, pos, old(params.Value()), found, matchParams);
    }

    /** `find(url)`: the linear scan's answer. */
    method FindUrl(num: Numbers, url: string) returns (found: nat, matchParams: Params)
      requires Valid()
      ensures Selects(num, TheRules(), url, found, matchParams)
      ensures found != 0 ==> exists r, at :: r in TheRules() && CutBy(num, r, url, at, found, matchParams)
      ensures forall r, at | r in TheRules() && IsCut(num, r.0, url, at) && at[0] == 0 :: 0 < found <= r.1
    {
      var params := new RoutingParams();
      found, matchParams := Find(num, url, head, 0, params);
      BestFromHead(num, graph, url, found, matchParams);
      SelectedCut(num, TheRules(), url, found, matchParams);
    }

    method FindChild(num: Numbers, url: string, child: Node, pos: nat, params: RoutingParams)
      returns (r: nat, rParams: Params)
      requires Valid() && child in graph.cells && |graph.cells[child].Edge()| > 0 && pos < |url|
      modifies params
      ensures params.Value() == old(params.Value())
      ensures Tried(num, graph, child, url, pos, old(params.Value()), r, rParams)
      decreases |url| - pos, 1
    {
      r, rParams := 0, NO_PARAMS;
      if child.param.Some? {
        match child.param.value
        case STRING => r, rParams := FindString(num, url, child, pos, params);
        case PATH => r, rParams := FindPath(num, url, child, pos, params);
        case INT => r, rParams := FindInt(num, url, child, pos, params);
        case UINT => r, rParams := FindUint(num, url, child, pos, params);
        case DOUBLE => r, rParams := FindDouble(num, url, child, pos, params);
      } else if PrefixAt(url, pos, child.key) {
        r, rParams := Find(num, url, child, pos + |child.key|, params);
      }
    }

    method FindInt(num: Numbers, url: string, child: Node, pos: nat, params: RoutingParams)
      returns (r: nat, rParams: Params)
      requires Valid() && child in graph.cells && pos < |url| && child.param == Some(INT)
      modifies params
      ensures params.Value() == old(params.Value())
      ensures Tried(num, graph, child, url, pos, old(params.Value()), r, rParams)
      decreases |url| - pos, 0
    {
      r, rParams := 0, NO_PARAMS;
      var c := url[pos];
      if Digit(c) || c == '+' || c == '-' {
        match num.strtoll(url, pos)
        case None =>
        case Some((value, end)) =>
          params.ints := params.ints + [value];
          r, rParams := Find(num, url, child, end, params);
          params.ints := params.ints[..|params.ints| - 1];
      }
    }

    method FindUint(num: Numbers, url: string, child: Node, pos: nat, params: RoutingParams)
      returns (r: nat, rParams: Params)
      requires Valid() && child in graph.cells && pos < |url| && child.param == Some(UINT)
      modifies params
      ensures params.Value() == old(params.Value())
      ensures Tried(num, graph, child, url, pos, old(params.Value()), r, rParams)
      decreases |url| - pos, 0
    {
      r, rParams := 0, NO_PARAMS;
      var c := url[pos];
      if Digit(c) || c == '+' {
        match num.strtoull(url, pos)
        case None =>
        case Some((value, end)) =>
          params.uints := params.uints + [value];
          r, rParams := Find(num, url, child, end, params);
          params.uints := params.uints[..|params.uints| - 1];
      }
    }

    method FindDouble(num: Numbers, url: string, child: Node, pos: nat, params: RoutingParams)
      returns (r: nat, rParams: Params)
      requires Valid() && child in graph.cells && pos < |url| && child.param == Some(DOUBLE)
      modifies params
      ensures params.Value() == old(params.Value())
      ensures Tried(num, graph, child, url, pos, old(params.Value()), r, rParams)
      decreases |url| - pos, 0
    {
      r, rParams := 0, NO_PARAMS;
      var c := url[pos];
      if Digit(c) || c == '+' || c == '-' || c == '.' {
        match num.strtod(url, pos)
        case None =>
        case Some((value, end)) =>
          params.doubles := params.doubles + [value];
          r, rParams := Find(num, url, child, end, params);
          params.doubles := params.doubles[..|params.doubles| - 1];
      }
    }

    method FindString(num: Numbers, url: string, child: Node, pos: nat, params: RoutingParams)
      returns (r: nat, rParams: Params)
      requires Valid() && child in graph.cells && pos < |url| && child.param == Some(STRING)
      modifies params
      ensures params.Value() == old(params.Value())
      ensures Tried(num, graph, child, url, pos, old(params.Value()), r, rParams)
      decreases |url| - pos, 0
    {
      r, rParams := 0, NO_PARAMS;
      var epos := pos;
      while epos < |url| && url[epos] != '/'
        invariant pos <= epos <= |url| && SegmentEnd(url, pos) == SegmentEnd(url, epos)
      {
        epos := epos + 1;
      }
      assert SegmentEnd(url, pos) == epos;
      if epos != pos {
        params.strings := params.strings + [url[pos..epos]];
        r, rParams := Find(num, url, child, epos, params);
        params.strings := params.strings[..|params.strings| - 1];
      }
    }

    method FindPath(num: Numbers, url: string, child: Node, pos: nat, params: RoutingParams)
      returns (r: nat, rParams: Params)
      requires Valid() && child in graph.cells && pos < |url| && child.param == Some(PATH)
      modifies params
      ensures params.Value() == old(params.Value())
      ensures Tried(num, graph, child, url, pos, old(params.Value()), r, rParams)
      decreases |url| - pos, 0
    {
      r, rParams := 0, NO_PARAMS;
      var epos := |url|;
      if epos != pos {
        assert url[pos..epos] == url[pos..];
        params.strings := params.strings + [url[pos..epos]];
        r, rParams := Find(num, url, child, epos, params);
        params.strings := params.strings[..|params.strings| - 1];
      }
    }
  }

  /** The first `i` characters of the pattern are the tokens `before`. */
  ghost predicate ReadTo(url: string, i: nat, before: seq<Token>) {
    WellFormed(url) && i <= |url| && Pattern(url) == before + Tokens(url, i)
  }

  lemma Along(url: string, i: nat, before: seq<Token>) returns (t: Token, next: nat)
    requires i < |url| && ReadTo(url, i, before)
    ensures i < next <= |url| && ReadTo(url, next, before + [t])
    ensures if url[i] == '<' then t.Par? && TagAt(url, i) == Some((t.p, next - i))
            else t == Lit(url[i]) && t.c != '\0' && next == i + 1
  {
    t, next := FirstToken(url, i, before);
    OneTokenMore(before, t, Tokens(url, next));
    assert Pattern(url)[|before|] == t;
  }

  lemma FirstToken(url: string, i: nat, before: seq<Token>) returns (t: Token, next: nat)
    requires i < |url| && ReadTo(url, i, before)
    ensures i < next <= |url| && Tokens(url, i) == [t] + Tokens(url, next)
    ensures if url[i] == '<' then t.Par? && TagAt(url, i) == Some((t.p, next - i)) else t == Lit(url[i]) && next == i + 1
  {
    TagThere(url, i, before);
    match TagAt(url, i)
    case Some((p, length)) => t, next := Par(p), i + length;
    case None => t, next := Lit(url[i]), i + 1;
  }

  /** In a well-formed pattern every `<` begins a tag. */
  lemma TagThere(url: string, i: nat, before: seq<Token>)
    requires i < |url| && ReadTo(url, i, before)
    ensures TagAt(url, i).Some? <==> url[i] == '<'
  {
  }

  lemma OneTokenMore(before: seq<Token>, t: Token, rest: seq<Token>)
    ensures before + ([t] + rest) == before + [t] + rest
  {
  }

  /** The rules for a node's path are the one that the node carries. */
  lemma NodeRule(g: Graph, n: Node)
    requires Ok(g) && n in g.cells
    ensures forall r | r in Rules(g) && r.0 == g.path[n] :: r.1 == g.cells[n].rule
    ensures g.cells[n].rule != 0 ==> (g.path[n], g.cells[n].rule) in Rules(g)
    ensures g.cells[n].rule == 0 <==> !Has(Rules(g), g.path[n])
  {
    forall r | r in Rules(g) && r.0 == g.path[n] ensures r.1 == g.cells[n].rule && r.1 != 0 {
      var m: Node :| m in g.cells && g.cells[m].rule != 0 && r == (g.path[m], g.cells[m].rule);
      assert SamePath(g, m, n);
    }
  }
}
