/** What every reachable state of the engine satisfies, and the proof that every step keeps it. */
module EngineInvariant {
  import opened Options
  import opened EngineMachine

  // ---------------------------------------------------------------- the invariant

  predicate Linked(place: seq<Place>, a: int) {
    0 <= a < |place| && place[a].InBucket?
  }

  function First(list: seq<Addr>): Option<Addr> {
    if list == [] then None else Some(list[0])
  }

  function After(list: seq<Addr>, i: nat): Option<Addr> {
    if i + 1 < |list| then Some(list[i + 1]) else None
  }

  /** The node's link is null at the end of its list and leads to the next position otherwise. */
  ghost predicate NextOk(nodes: seq<Node>, lists: seq<seq<Addr>>, place: seq<Place>, a: int)
    requires |place| == |nodes|
  {
    Linked(place, a) ==>
      var p := place[a];
      p.bucket < |lists| && nodes[a].next == After(lists[p.bucket], p.index)
  }

  ghost predicate KeysDiffer(nodes: seq<Node>, place: seq<Place>, a: int, b: int)
    requires |place| == |nodes|
  {
    Linked(place, a) && Linked(place, b) && a != b ==> nodes[a].key != nodes[b].key
  }

  ghost predicate Sized(c: Config, s: State) {
    && |s.mem.buckets| == c.size
    && |s.hist.lists| == c.size
    && |s.hist.place| == |s.mem.nodes|
  }

  /** Positions and linked nodes determine each other, and a node's key hashes to its bucket. */
  ghost predicate Positions(c: Config, s: State)
    requires Sized(c, s)
  {
    var h := s.hist;
    && (forall b, i {:trigger h.lists[b][i]} | 0 <= b < c.size && 0 <= i < |h.lists[b]| ::
          h.lists[b][i] < |h.place| && h.place[h.lists[b][i]] == InBucket(b, i))
    && (forall a {:trigger Linked(h.place, a)} | Linked(h.place, a) ::
          var p := h.place[a];
          && p.bucket < c.size && p.index < |h.lists[p.bucket]| && h.lists[p.bucket][p.index] == a
          && BucketOf(c, s.mem.nodes[a].key) == p.bucket)
  }

  /** Every bucket is a finite list that the links spell out, and no two linked nodes share a key. */
  ghost predicate Lists(c: Config, s: State) {
    && Sized(c, s)
    && (forall b | 0 <= b < c.size :: s.mem.buckets[b] == First(s.hist.lists[b]))
    && Positions(c, s)
    && (forall a {:trigger NextOk(s.mem.nodes, s.hist.lists, s.hist.place, a)} ::
          NextOk(s.mem.nodes, s.hist.lists, s.hist.place, a))
    && (forall a, b {:trigger KeysDiffer(s.mem.nodes, s.hist.place, a, b)} ::
          KeysDiffer(s.mem.nodes, s.hist.place, a, b))
  }

  /** Every allocated node is linked, or behind exactly one running `set`, or freed. */
  ghost predicate Ownership(s: State) {
    var m, h := s.mem, s.hist;
    && |h.place| == |m.nodes|
    && (forall a: Addr :: a in m.freed <==> a < |h.place| && h.place[a] == Freed)
    && (forall a | 0 <= a < |h.place| && h.place[a].OwnedBy? ::
          && m.nodes[a].next == None
          && h.place[a].thread in s.threads
          && s.threads[h.place[a].thread].pc.Owned() == Some(a))
  }

  ghost predicate HasNode(nodes: seq<Node>, place: seq<Place>, key: string)
    requires |place| == |nodes|
  {
    exists a: Addr :: Linked(place, a) && nodes[a].key == key
  }

  /** The linked nodes hold exactly the given map. */
  ghost predicate Represents(nodes: seq<Node>, place: seq<Place>, contents: Contents) {
    && |place| == |nodes|
    && (forall a | Linked(place, a) :: nodes[a].key in contents && contents[nodes[a].key] == nodes[a].value)
    && (forall k | k in contents :: HasNode(nodes, place, k))
  }

  /** Each logged operation got the answer that the plain map gives at that point. */
  ghost predicate Legal(log: seq<Lin>) {
    forall i | 0 <= i < |log| :: log[i].res == Answer(Replay(log[..i]), log[i].op)
  }

  /** A call is either running in one thread or is one return, and took effect at most at one place. */
  ghost predicate CallOk(s: State, k: int) {
    0 <= k < |s.hist.calls| ==>
      var call := s.hist.calls[k];
      && (call.at.Some? ==> call.at.value < |s.hist.log| && s.hist.log[call.at.value].call == k)
      && (call.role.Running? ==> call.role.thread in s.threads && s.threads[call.role.thread].call == k)
      && (call.role.Over? ==> call.role.index < |s.hist.done| && s.hist.done[call.role.index].call == k)
  }

  /** Calls, running threads, returns and log entries determine each other. */
  ghost predicate Calls(s: State) {
    var h := s.hist;
    && (forall t | t in s.threads ::
          s.threads[t].call < |h.calls| && h.calls[s.threads[t].call].role == Running(t))
    && (forall j | 0 <= j < |h.done| ::
          h.done[j].call < |h.calls| && h.calls[h.done[j].call].role == Over(j))
    && (forall i | 0 <= i < |h.log| ::
          h.log[i].call < |h.calls| && h.calls[h.log[i].call].at == Some(i))
    && (forall k {:trigger CallOk(s, k)} :: CallOk(s, k))
  }

  ghost predicate Global(c: Config, s: State) {
    Lists(c, s) && Ownership(s) && Represents(s.mem.nodes, s.hist.place, Replay(s.hist.log)) && Legal(s.hist.log) && Calls(s)
  }

  /** The call has not taken effect yet. */
  ghost predicate Pending(s: State, call: nat) {
    call < |s.hist.calls| && s.hist.calls[call].at == None
  }

  /** The call took effect, once, after it was invoked, with this result. */
  ghost predicate Took(s: State, call: nat, op: Op, since: nat, res: Result) {
    && call < |s.hist.calls| && s.hist.calls[call].at.Some?
    && since <= s.hist.calls[call].at.value < |s.hist.log|
    && s.hist.log[s.hist.calls[call].at.value] == Lin(call, op, res)
  }

  /** The cursor stands at `node`, and nothing behind it in the bucket has the key. */
  ghost predicate Behind(c: Config, s: State, key: string, node: Addr)
    requires Sized(c, s)
  {
    && Linked(s.hist.place, node)
    && s.hist.place[node].bucket == BucketOf(c, key)
    && forall a | Linked(s.hist.place, a) && s.hist.place[a].bucket == BucketOf(c, key)
        && s.hist.place[a].index < s.hist.place[node].index :: s.mem.nodes[a].key != key
  }

  ghost predicate OwnNode(s: State, t: Tid, own: Addr, key: string, value: string) {
    && own < |s.hist.place| == |s.mem.nodes|
    && s.hist.place[own] == OwnedBy(t)
    && s.mem.nodes[own] == Node(key, value, None)
  }

  /** Positions are visited bucket by bucket, and inside a bucket in list order. */
  predicate Earlier(p: Place, bucket: nat, index: nat) {
    p.InBucket? && (p.bucket < bucket || (p.bucket == bucket && p.index < index))
  }

  ghost predicate Visited(seen: seq<Visit>, key: string) {
    exists x :: 0 <= x < |seen| && seen[x].key == key
  }

  ghost predicate ValidVisit(nodes: seq<Node>, place: seq<Place>, log: seq<Lin>, v: Visit, since: nat, moment: nat)
    requires |place| == |nodes|
  {
    && Linked(place, v.node) && nodes[v.node].key == v.key
    && since <= moment <= |log|
    && v.key in Replay(log[..moment]) && Replay(log[..moment])[v.key] == v.value
  }

  /** An enumeration that has passed everything before (`bucket`, `index`): its visits are of linked
      nodes, in order, each with a value that was current at its moment, and no key that was there
      at the start is missing. */
  ghost predicate Enumerated(nodes: seq<Node>, place: seq<Place>, log: seq<Lin>, seen: seq<Visit>, since: nat,
                             moments: seq<nat>, bucket: nat, index: nat)
    requires |place| == |nodes| && since <= |log|
  {
    && |moments| == |seen|
    && (forall x | 0 <= x < |seen| ::
          ValidVisit(nodes, place, log, seen[x], since, moments[x]) && Earlier(place[seen[x].node], bucket, index))
    && (forall x, y | 0 <= x < y < |seen| ::
          var p := place[seen[y].node]; p.InBucket? && Earlier(place[seen[x].node], p.bucket, p.index))
    && (forall a | Linked(place, a) && Earlier(place[a], bucket, index)
          && nodes[a].key in Replay(log[..since]) :: Visited(seen, nodes[a].key))
  }

  ghost predicate ThreadOk(c: Config, s: State, t: Tid)
    requires Sized(c, s) && t in s.threads
  {
    var th, h := s.threads[t], s.hist;
    && th.before <= |h.done| && th.since <= |h.log|
    && (forall i | 0 <= i < th.before :: h.done[i].until <= th.since)
    && match th.pc
       case GetHead(key) => th.op == Get(key) && Pending(s, th.call) && th.steps == 0
       case GetAt(key, node) =>
         && th.op == Get(key) && Pending(s, th.call)
         && Behind(c, s, key, node) && th.steps == h.place[node].index + 1
       case GetValue(key, node) =>
         && th.op == Get(key) && Pending(s, th.call)
         && Linked(s.hist.place, node) && s.mem.nodes[node].key == key && th.steps == h.place[node].index + 2
       case GetMiss(key) =>
         && th.op == Get(key) && Took(s, th.call, th.op, th.since, Missing)
         && th.steps <= |h.lists[BucketOf(c, key)]| + 1
       case SetNew(key, value) => th.op == Set(key, value) && Pending(s, th.call) && th.steps == 0 && th.cas == 0
       case SetHead(key, value, own) =>
         && th.op == Set(key, value) && Pending(s, th.call) && OwnNode(s, t, own, key, value)
         && th.steps == 1 && th.cas == 0
       case SetAt(key, value, own, node) =>
         && th.op == Set(key, value) && Pending(s, th.call) && OwnNode(s, t, own, key, value)
         && Behind(c, s, key, node)
         && th.steps == h.place[node].index + 2 && th.cas == h.place[node].index + 1
       case SetDelete(own) =>
         && th.op.Set? && Took(s, th.call, th.op, th.since, Stored)
         && own < |h.place| && h.place[own] == OwnedBy(t)
         && 1 <= th.cas <= |h.lists[BucketOf(c, th.op.key)]|
         && th.steps <= |h.lists[BucketOf(c, th.op.key)]| + 2
       case EnumHead(b, _) => EnumeratorOk(c, s, th)
       case EnumAt(b, node, _) => EnumeratorOk(c, s, th) && Linked(s.hist.place, node) && h.place[node].bucket == b
       case EnumNext(b, node, _) => EnumeratorOk(c, s, th) && Linked(s.hist.place, node) && h.place[node].bucket == b
  }

  /** The index inside its bucket up to which an enumeration has visited everything. */
  function Frontier(place: seq<Place>, pc: PC): nat {
    match pc
    case EnumAt(_, node, _) => if Linked(place, node) then place[node].index else 0
    case EnumNext(_, node, _) => if Linked(place, node) then place[node].index + 1 else 0
    case _ => 0
  }

  ghost predicate EnumeratorOk(c: Config, s: State, th: Thread)
    requires Sized(c, s) && th.since <= |s.hist.log| && (th.pc.EnumHead? || th.pc.EnumAt? || th.pc.EnumNext?)
  {
    && th.op == Enumerate && th.pc.bucket < c.size
    && Enumerated(s.mem.nodes, s.hist.place, s.hist.log, th.pc.seen, th.since, th.moments, th.pc.bucket, Frontier(s.hist.place, th.pc))
  }

  ghost predicate DoneOk(c: Config, s: State, j: nat)
    requires Sized(c, s) && j < |s.hist.done|
  {
    var d, h := s.hist.done[j], s.hist;
    && d.before <= j && d.since <= d.until <= |h.log|
    && (forall i | 0 <= i < d.before :: h.done[i].until <= d.since)
    && match d.op
       case Get(key) =>
         && (d.res.Found? || d.res.Missing?)
         && Took(s, d.call, d.op, d.since, d.res) && h.calls[d.call].at.value < d.until
         && d.steps <= |h.lists[BucketOf(c, key)]| + 2
       case Set(key, value) =>
         && d.res == Stored
         && Took(s, d.call, d.op, d.since, d.res) && h.calls[d.call].at.value < d.until
         && 1 <= d.cas <= |h.lists[BucketOf(c, key)]|
         && d.steps <= |h.lists[BucketOf(c, key)]| + 3
       case Enumerate =>
         && d.res.Listed? && Enumerated(s.mem.nodes, s.hist.place, s.hist.log, d.res.visits, d.since, d.moments, c.size, 0)
         && forall x | 0 <= x < |d.moments| :: d.moments[x] <= d.until
  }

  ghost predicate Inv(c: Config, s: State) {
    && Global(c, s)
    && (forall t {:trigger ThreadOk(c, s, t)} | t in s.threads :: ThreadOk(c, s, t))
    && (forall j {:trigger DoneOk(c, s, j)} | 0 <= j < |s.hist.done| :: DoneOk(c, s, j))
  }

  // ---------------------------------------------------------------- what a step leaves alone

  /** What one step of thread `t` can change for everybody else: it may append. */
  ghost predicate Extends(c: Config, s: State, s': State, t: Tid) {
    var m, h, m', h' := s.mem, s.hist, s'.mem, s'.hist;
    && |h.place| == |m.nodes| <= |h'.place| == |m'.nodes|
    && |h.lists| == |h'.lists| == c.size
    && (forall a | 0 <= a < |m.nodes| :: m'.nodes[a].key == m.nodes[a].key)
    && (forall a | Linked(s.hist.place, a) :: h'.place[a] == h.place[a])
    && (forall a | 0 <= a < |m.nodes| && h.place[a].OwnedBy? && h.place[a].thread != t ::
          h'.place[a] == h.place[a] && m'.nodes[a] == m.nodes[a])
    && (forall a | Linked(s'.hist.place, a) && !Linked(s.hist.place, a) :: m'.nodes[a].key !in Replay(h.log))
    && (forall b | 0 <= b < c.size :: h.lists[b] <= h'.lists[b])
    && (forall a | Linked(s'.hist.place, a) && !Linked(s.hist.place, a) ::
          h'.place[a].bucket < c.size && h'.place[a].index >= |h.lists[h'.place[a].bucket]|)
    && h.log <= h'.log
    && |h.calls| <= |h'.calls|
    && (forall k | 0 <= k < |h.calls| && h.calls[k] != h'.calls[k] ::
          t in s.threads && k == s.threads[t].call && (h.calls[k].at.Some? ==> h'.calls[k].at == h.calls[k].at))
    && h.done <= h'.done
    && (forall u | u != t :: u in s.threads <==> u in s'.threads)
    && (forall u | u != t && u in s.threads :: s'.threads[u] == s.threads[u])
  }

  lemma ReplayGrows(log: seq<Lin>, log': seq<Lin>)
    requires log <= log'
    ensures Replay(log).Keys <= Replay(log').Keys
    decreases |log'|
  {
    if |log| < |log'| {
      ReplayGrows(log, log'[..|log'| - 1]);
    } else {
      assert log == log';
    }
  }

  lemma EnumeratedExtends(c: Config, s: State, s': State, t: Tid, seen: seq<Visit>, since: nat, moments: seq<nat>,
                          bucket: nat, index: nat)
    requires Lists(c, s) && Lists(c, s') && Extends(c, s, s', t)
    requires since <= |s.hist.log|
    requires Enumerated(s.mem.nodes, s.hist.place, s.hist.log, seen, since, moments, bucket, index)
    ensures Enumerated(s'.mem.nodes, s'.hist.place, s'.hist.log, seen, since, moments, bucket, index)
  {
    forall x | 0 <= x < |seen| ensures ValidVisit(s'.mem.nodes, s'.hist.place, s'.hist.log, seen[x], since, moments[x]) {
      assert ValidVisit(s.mem.nodes, s.hist.place, s.hist.log, seen[x], since, moments[x]);
      assert s'.hist.log[..moments[x]] == s.hist.log[..moments[x]];
    }
    assert s'.hist.log[..since] == s.hist.log[..since];
    ReplayGrows(s.hist.log[..since], s.hist.log);
    forall a | Linked(s'.hist.place, a) && Earlier(s'.hist.place[a], bucket, index)
      && s'.mem.nodes[a].key in Replay(s'.hist.log[..since])
      ensures Visited(seen, s'.mem.nodes[a].key)
    {
      assert Linked(s.hist.place, a);
    }
  }

  lemma GettersKeep(c: Config, s: State, s': State, t: Tid, u: Tid)
    requires Lists(c, s) && Lists(c, s') && Extends(c, s, s', t)
    requires u != t && u in s.threads && s.threads[u].op.Get? && ThreadOk(c, s, u)
    requires t in s.threads ==> s.threads[u].call != s.threads[t].call
    ensures ThreadOk(c, s', u)
  {
    var th := s.threads[u];
    if th.pc.GetAt? {
      BehindExtends(c, s, s', t, th.pc.key, th.pc.node);
    }
  }

  lemma SettersKeep(c: Config, s: State, s': State, t: Tid, u: Tid)
    requires Lists(c, s) && Lists(c, s') && Extends(c, s, s', t)
    requires u != t && u in s.threads && s.threads[u].op.Set? && ThreadOk(c, s, u)
    requires t in s.threads ==> s.threads[u].call != s.threads[t].call
    ensures ThreadOk(c, s', u)
  {
    var th := s.threads[u];
    if th.pc.SetAt? {
      BehindExtends(c, s, s', t, th.pc.key, th.pc.node);
    }
  }

  lemma EnumeratorsKeep(c: Config, s: State, s': State, t: Tid, u: Tid)
    requires Lists(c, s) && Lists(c, s') && Extends(c, s, s', t)
    requires u != t && u in s.threads && s.threads[u].op.Enumerate? && ThreadOk(c, s, u)
    requires t in s.threads ==> s.threads[u].call != s.threads[t].call
    ensures ThreadOk(c, s', u)
  {
    var th := s.threads[u];
    assert EnumeratorOk(c, s', th) by {
      assert Frontier(s'.hist.place, th.pc) == Frontier(s.hist.place, th.pc);
      EnumeratedExtends(c, s, s', t, th.pc.seen, th.since, th.moments, th.pc.bucket, Frontier(s.hist.place, th.pc));
    }
  }

  lemma OthersKeep(c: Config, s: State, s': State, t: Tid, u: Tid)
    requires Lists(c, s) && Lists(c, s') && Extends(c, s, s', t)
    requires u != t && u in s.threads && ThreadOk(c, s, u)
    requires t in s.threads ==> s.threads[u].call != s.threads[t].call
    ensures ThreadOk(c, s', u)
  {
    match s.threads[u].op
    case Get(_) => GettersKeep(c, s, s', t, u);
    case Set(_, _) => SettersKeep(c, s, s', t, u);
    case Enumerate => EnumeratorsKeep(c, s, s', t, u);
  }

  lemma BehindExtends(c: Config, s: State, s': State, t: Tid, key: string, node: Addr)
    requires Lists(c, s) && Lists(c, s') && Extends(c, s, s', t) && Behind(c, s, key, node)
    ensures Behind(c, s', key, node)
  {
    forall a | Linked(s'.hist.place, a) && s'.hist.place[a].bucket == BucketOf(c, key)
      && s'.hist.place[a].index < s'.hist.place[node].index
      ensures s'.mem.nodes[a].key != key
    {
      assert Linked(s.hist.place, a);
    }
  }

  lemma DoneKeeps(c: Config, s: State, s': State, t: Tid, j: nat)
    requires Lists(c, s) && Lists(c, s') && Extends(c, s, s', t) && j < |s.hist.done| && DoneOk(c, s, j)
    ensures DoneOk(c, s', j)
  {
    var d := s.hist.done[j];
    if d.op.Enumerate? {
      EnumeratedExtends(c, s, s', t, d.res.visits, d.since, d.moments, c.size, 0);
    }
  }
}
