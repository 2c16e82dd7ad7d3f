/** What the invariant means to the users of the engine. */
module EngineTheorems {
  import opened Options
  import opened EngineMachine
  import opened EngineInvariant
  import opened EngineSteps
  import opened EngineRuns

  // ---------------------------------------------------------------- linearizability

  /** Every effect of the first call comes before every effect of the second one. */
  ghost predicate Precedes(log: seq<Lin>, first: nat, second: nat) {
    forall a, b | 0 <= a < |log| && 0 <= b < |log| && log[a].call == first && log[b].call == second :: a < b
  }

  /** A call that had returned before another was made comes before it in the order. */
  ghost predicate RealTime(log: seq<Lin>, done: seq<Done>) {
    forall i, j | 0 <= i < |done| && 0 <= j < |done| && i < done[j].before
      && !done[i].op.Enumerate? && !done[j].op.Enumerate? ::
      Precedes(log, done[i].call, done[j].call)
  }

  ghost predicate Once(log: seq<Lin>) {
    forall i, j | 0 <= i < j < |log| :: log[i].call != log[j].call
  }

  /** A get or set that returned took effect between its invocation and its return, with its answer. */
  ghost predicate TookEffectInside(log: seq<Lin>, d: Done) {
    exists at :: d.since <= at < d.until <= |log| && log[at] == Lin(d.call, d.op, d.res)
  }

  ghost predicate Made(s: State, call: nat) {
    || (exists t :: t in s.threads && s.threads[t].call == call)
    || (exists j :: 0 <= j < |s.hist.done| && s.hist.done[j].call == call)
  }

  /** Every answer is explained by one sequential order of the operations: replaying the log on a
      plain map gives every recorded answer, no call takes effect twice, only calls that were made
      take effect, and the order respects what happened one after the other. */
  ghost predicate Linearizable(s: State) {
    && Legal(s.hist.log)
    && Once(s.hist.log)
    && (forall i | 0 <= i < |s.hist.log| :: Made(s, s.hist.log[i].call))
    && (forall j | 0 <= j < |s.hist.done| && !s.hist.done[j].op.Enumerate? ::
          TookEffectInside(s.hist.log, s.hist.done[j]))
    && RealTime(s.hist.log, s.hist.done)
  }

  lemma Linearizability(c: Config, s: State)
    requires Reachable(c, s)
    ensures Linearizable(s)
  {
    ReachableInv(c, s);
    forall i | 0 <= i < |s.hist.log| {
      LoggedWasMade(s, i);
    }
    forall j | 0 <= j < |s.hist.done| && !s.hist.done[j].op.Enumerate?
      ensures TookEffectInside(s.hist.log, s.hist.done[j])
    {
      var at := TookEffect(c, s, j);
    }
    forall i, j | 0 <= i < |s.hist.done| && 0 <= j < |s.hist.done| && i < s.hist.done[j].before
      && !s.hist.done[i].op.Enumerate? && !s.hist.done[j].op.Enumerate? {
      InOrder(c, s, i, j);
    }
  }

  lemma LoggedWasMade(s: State, i: nat)
    requires Calls(s) && i < |s.hist.log|
    ensures Made(s, s.hist.log[i].call)
  {
    assert CallOk(s, s.hist.log[i].call);
  }

  lemma InOrder(c: Config, s: State, i: nat, j: nat)
    requires Inv(c, s) && i < |s.hist.done| && j < |s.hist.done| && i < s.hist.done[j].before
    requires !s.hist.done[i].op.Enumerate? && !s.hist.done[j].op.Enumerate?
    ensures Precedes(s.hist.log, s.hist.done[i].call, s.hist.done[j].call)
  {
    var first := TookEffect(c, s, i);
    var second := TookEffect(c, s, j);
    assert DoneOk(c, s, j);
  }

  lemma TookEffect(c: Config, s: State, j: nat) returns (at: nat)
    requires Inv(c, s) && j < |s.hist.done| && !s.hist.done[j].op.Enumerate?
    ensures var d := s.hist.done[j];
            && d.since <= at < d.until <= |s.hist.log|
            && s.hist.log[at] == Lin(d.call, d.op, d.res)
            && s.hist.calls[d.call].at == Some(at)
  {
    assert DoneOk(c, s, j);
    at := s.hist.calls[s.hist.done[j].call].at.value;
  }

  // ---------------------------------------------------------------- what never changes back

  /** Links change at most once, from null to a node; linked nodes stay where they are; freed nodes
      stay freed; keys never disappear. */
  ghost predicate Evolves(s: State, s': State) {
    && |s.mem.buckets| == |s'.mem.buckets|
    && |s.hist.place| == |s.mem.nodes| <= |s'.mem.nodes| == |s'.hist.place|
    && (forall b | 0 <= b < |s.mem.buckets| && s.mem.buckets[b].Some? :: s'.mem.buckets[b] == s.mem.buckets[b])
    && (forall a | 0 <= a < |s.mem.nodes| ::
          && s'.mem.nodes[a].key == s.mem.nodes[a].key
          && (s.mem.nodes[a].next.Some? ==> s'.mem.nodes[a].next == s.mem.nodes[a].next)
          && (s.hist.place[a].InBucket? || s.hist.place[a] == Freed ==> s'.hist.place[a] == s.hist.place[a]))
    && Replay(s.hist.log).Keys <= Replay(s'.hist.log).Keys
    && s.hist.log <= s'.hist.log && s.hist.done <= s'.hist.done && |s.hist.calls| <= |s'.hist.calls|
  }

  /** No access moves a link that is not null, whatever the state. */
  lemma AccessLinksOnce(c: Config, m: Memory, pc: PC)
    requires Safe(c, m, pc)
    ensures var m' := Access(c, m, pc).mem;
            && |m'.buckets| == |m.buckets| && |m'.nodes| >= |m.nodes|
            && (forall b | 0 <= b < |m.buckets| && m.buckets[b].Some? :: m'.buckets[b] == m.buckets[b])
            && (forall a | 0 <= a < |m.nodes| && m.nodes[a].next.Some? :: m'.nodes[a].next == m.nodes[a].next)
  {
  }

  lemma NoteKeepsFreed(c: Config, s: State, t: Tid, a: nat)
    requires Ownership(s) && CanStep(c, s, t) && a < |s.hist.place| && s.hist.place[a] == Freed
    ensures var s' := StepOf(c, s, t); a < |s'.hist.place| && s'.hist.place[a] == Freed
  {
  }

  lemma StepEvolves(c: Config, s: State, t: Tid)
    requires Inv(c, s) && CanStep(c, s, t)
    ensures Evolves(s, StepOf(c, s, t))
  {
    var s' := StepOf(c, s, t);
    assert s'.mem == Access(c, s.mem, s.threads[t].pc).mem;
    AccessLinksOnce(c, s.mem, s.threads[t].pc);
    forall a | 0 <= a < |s.hist.place| && s.hist.place[a] == Freed ensures s'.hist.place[a] == Freed {
      NoteKeepsFreed(c, s, t, a);
    }
    ExtendsEvolves(c, s, s', t);
  }

  lemma ExtendsEvolves(c: Config, s: State, s': State, t: Tid)
    requires Inv(c, s) && CanStep(c, s, t) && s' == StepOf(c, s, t)
    ensures |s.hist.place| == |s.mem.nodes| <= |s'.mem.nodes| == |s'.hist.place|
    ensures forall a | 0 <= a < |s.mem.nodes| :: s'.mem.nodes[a].key == s.mem.nodes[a].key
    ensures forall a | Linked(s.hist.place, a) :: s'.hist.place[a] == s.hist.place[a]
    ensures Replay(s.hist.log).Keys <= Replay(s'.hist.log).Keys
    ensures s.hist.log <= s'.hist.log && s.hist.done <= s'.hist.done && |s.hist.calls| <= |s'.hist.calls|
  {
    StepKeeps(c, s, t);
    ReplayGrows(s.hist.log, s'.hist.log);
  }

  lemma NextEvolves(c: Config, s: State, e: Event)
    requires Inv(c, s)
    ensures Evolves(s, Next(c, s, e))
  {
    match e
    case Invoke(t, op) => if t !in s.threads { InvokeKeeps(c, s, t, op); }
    case Step(t) => if CanStep(c, s, t) { StepEvolves(c, s, t); }
  }

  lemma {:induction false} RunEvolves(c: Config, s: State, es: seq<Event>)
    requires Inv(c, s)
    ensures Evolves(s, Run(c, s, es))
    decreases |es|
  {
    if es != [] {
      var s1 := Run(c, s, es[..|es| - 1]);
      RunEvolves(c, s, es[..|es| - 1]);
      RunKeeps(c, s, es[..|es| - 1]);
      NextEvolves(c, s1, es[|es| - 1]);
    }
  }

  lemma {:induction false} RunsCompose(c: Config, s: State, es: seq<Event>, fs: seq<Event>)
    ensures Run(c, s, es + fs) == Run(c, Run(c, s, es), fs)
    decreases |fs|
  {
    if fs == [] {
      assert es + fs == es;
    } else {
      assert (es + fs)[..|es + fs| - 1] == es + fs[..|fs| - 1];
      RunsCompose(c, s, es, fs[..|fs| - 1]);
    }
  }

  /** Real time, without the bookkeeping: an operation whose call returned during `es` comes, in every
      later log, before any operation whose call was made after `es`. */
  lemma ReturnedBeforeInvoked(c: Config, es: seq<Event>, fs: seq<Event>, j: nat, a: nat, b: nat)
    requires var s, s' := Run(c, Init(c), es), Run(c, Init(c), es + fs);
             && j < |s.hist.done| && !s.hist.done[j].op.Enumerate?
             && a < |s'.hist.log| && b < |s'.hist.log|
             && s'.hist.log[a].call == s.hist.done[j].call
             && s'.hist.log[b].call >= |s.hist.calls|
    ensures a < b
  {
    var s, s' := Run(c, Init(c), es), Run(c, Init(c), es + fs);
    ReachableInv(c, s);
    ReachableInv(c, s');
    RunsCompose(c, Init(c), es, fs);
    RunEvolves(c, s, fs);
    var at := TookEffect(c, s, j);
    assert s'.hist.log[at] == s.hist.log[at];
  }

  // ---------------------------------------------------------------- nodes

  /** No access of any thread, in any reachable state, dereferences a null, freed or unallocated node. */
  lemma EveryAccessIsSafe(c: Config, s: State, t: Tid)
    requires Reachable(c, s) && t in s.threads
    ensures Safe(c, s.mem, s.threads[t].pc) && CanStep(c, s, t)
  {
    ReachableInv(c, s);
    StepIsSafe(c, s, t);
  }

  ghost predicate InList(s: State, a: Addr, b: nat, i: nat) {
    b < |s.hist.lists| && i < |s.hist.lists[b]| && s.hist.lists[b][i] == a
  }

  ghost predicate HeldBy(s: State, a: Addr, t: Tid) {
    t in s.threads && s.threads[t].pc.Owned() == Some(a)
  }

  ghost predicate SomeList(s: State, a: Addr) {
    exists b: nat, i: nat :: InList(s, a, b, i)
  }

  ghost predicate SomeHolder(s: State, a: Addr) {
    exists t: Tid :: HeldBy(s, a, t)
  }

  /** Exactly one of: linked at one position of one bucket, held by one running `set`, freed. */
  ghost predicate Accounted(s: State, a: Addr) {
    && (forall b: nat, i: nat, b': nat, i': nat | InList(s, a, b, i) && InList(s, a, b', i') :: b == b' && i == i')
    && (forall t: Tid, u: Tid | HeldBy(s, a, t) && HeldBy(s, a, u) :: t == u)
    && (if SomeList(s, a) then !SomeHolder(s, a) && a !in s.mem.freed else SomeHolder(s, a) <==> a !in s.mem.freed)
  }

  lemma HoldersOwn(c: Config, s: State, a: Addr, t: Tid)
    requires Inv(c, s) && HeldBy(s, a, t)
    ensures a < |s.hist.place| && s.hist.place[a] == OwnedBy(t)
  {
    assert ThreadOk(c, s, t);
  }

  lemma PlacedInList(c: Config, s: State, a: Addr, b: nat, i: nat)
    requires Lists(c, s) && a < |s.hist.place|
    ensures InList(s, a, b, i) <==> s.hist.place[a] == InBucket(b, i)
  {
    if s.hist.place[a] == InBucket(b, i) {
      assert Linked(s.hist.place, a);
    }
  }

  /** Node conservation. */
  lemma EveryNodeIsAccountedFor(c: Config, s: State, a: Addr)
    requires Reachable(c, s) && a < |s.mem.nodes|
    ensures Accounted(s, a)
  {
    ReachableInv(c, s);
    AccountedInv(c, s, a);
  }

  lemma AccountedInv(c: Config, s: State, a: Addr)
    requires Inv(c, s) && a < |s.mem.nodes|
    ensures Accounted(s, a)
  {
    forall t: Tid | HeldBy(s, a, t) {
      HoldersOwn(c, s, a, t);
    }
    forall b: nat, i: nat {
      PlacedInList(c, s, a, b, i);
    }
    match s.hist.place[a]
    case InBucket(b, i) => assert InList(s, a, b, i);
    case OwnedBy(t) => assert HeldBy(s, a, t);
    case Freed =>
  }

  /** A node that `set` frees has never been reachable from a bucket. */
  lemma FreedWasNeverLinked(c: Config, es: seq<Event>, fs: seq<Event>, a: Addr)
    requires a in Run(c, Init(c), es + fs).mem.freed
    ensures !Linked(Run(c, Init(c), es).hist.place, a)
  {
    var s, s' := Run(c, Init(c), es), Run(c, Init(c), es + fs);
    ReachableInv(c, s);
    ReachableInv(c, s');
    RunsCompose(c, Init(c), es, fs);
    RunEvolves(c, s, fs);
  }

  /** The list that hangs off a pointer: following links from it passes exactly these nodes. */
  ghost predicate Spells(nodes: seq<Node>, p: Option<Addr>, list: seq<Addr>)
    decreases |list|
  {
    match p
    case None => list == []
    case Some(a) => list != [] && list[0] == a && a < |nodes| && Spells(nodes, nodes[a].next, list[1..])
  }

  lemma {:induction false} ListsSpell(c: Config, s: State, b: nat, i: nat)
    requires Lists(c, s) && b < c.size && i <= |s.hist.lists[b]|
    ensures Spells(s.mem.nodes, First(s.hist.lists[b][i..]), s.hist.lists[b][i..])
    decreases |s.hist.lists[b]| - i
  {
    var list := s.hist.lists[b];
    if i < |list| {
      var a := list[i];
      assert NextOk(s.mem.nodes, s.hist.lists, s.hist.place, a);
      ListsSpell(c, s, b, i + 1);
      assert list[i..][1..] == list[i + 1..];
      assert First(list[i + 1..]) == After(list, i);
    }
  }

  ghost predicate DistinctKeys(nodes: seq<Node>, list: seq<Addr>) {
    && (forall i | 0 <= i < |list| :: list[i] < |nodes|)
    && (forall i, j | 0 <= i < j < |list| :: nodes[list[i]].key != nodes[list[j]].key)
  }

  /** Buckets are finite, acyclic lists of distinct keys that hash there: following the links from a
      bucket ends, and no two nodes met on the way have the same key. */
  lemma BucketsAreLists(c: Config, s: State, b: nat)
    requires Reachable(c, s) && b < c.size
    ensures |s.mem.buckets| == |s.hist.lists| == c.size
    ensures Spells(s.mem.nodes, s.mem.buckets[b], s.hist.lists[b])
    ensures DistinctKeys(s.mem.nodes, s.hist.lists[b])
    ensures forall i | 0 <= i < |s.hist.lists[b]| :: BucketOf(c, s.mem.nodes[s.hist.lists[b][i]].key) == b
  {
    ReachableInv(c, s);
    ListsSpell(c, s, b, 0);
    assert s.hist.lists[b][0..] == s.hist.lists[b];
    ListKeys(c, s, b);
  }

  lemma ListKeys(c: Config, s: State, b: nat)
    requires Lists(c, s) && b < c.size
    ensures DistinctKeys(s.mem.nodes, s.hist.lists[b])
    ensures forall i | 0 <= i < |s.hist.lists[b]| :: BucketOf(c, s.mem.nodes[s.hist.lists[b][i]].key) == b
  {
    var list := s.hist.lists[b];
    forall i | 0 <= i < |list| ensures list[i] < |s.mem.nodes| && BucketOf(c, s.mem.nodes[list[i]].key) == b {
      assert Linked(s.hist.place, list[i]);
    }
    forall i, j | 0 <= i < j < |list| ensures s.mem.nodes[list[i]].key != s.mem.nodes[list[j]].key {
      assert KeysDiffer(s.mem.nodes, s.hist.place, list[i], list[j]);
    }
  }

  // ---------------------------------------------------------------- cost

  function KeysIn(c: Config, m: Contents, b: nat): set<string> {
    set k | k in m && BucketOf(c, k) == b
  }

  lemma {:induction false} DistinctCount(ks: seq<string>)
    requires forall i, j | 0 <= i < j < |ks| :: ks[i] != ks[j]
    ensures |set k | k in ks| == |ks|
  {
    if ks != [] {
      var init, last := ks[..|ks| - 1], ks[|ks| - 1];
      DistinctCount(init);
      assert (set k | k in ks) == (set k | k in init) + {last};
    }
  }

  function Keys(nodes: seq<Node>, list: seq<Addr>): (ks: seq<string>)
    requires forall i | 0 <= i < |list| :: list[i] < |nodes|
  {
    seq(|list|, i requires 0 <= i < |list| => nodes[list[i]].key)
  }

  /** A bucket's list is as long as the number of distinct keys of that bucket ever set. */
  lemma ListLength(c: Config, s: State, b: nat)
    requires Inv(c, s) && b < c.size
    ensures |s.hist.lists[b]| == |KeysIn(c, Replay(s.hist.log), b)|
  {
    ListKeys(c, s, b);
    var ks := Keys(s.mem.nodes, s.hist.lists[b]);
    DistinctCount(ks);
    assert (set k | k in ks) == KeysIn(c, Replay(s.hist.log), b) by {
      forall k ensures k in ks <==> k in KeysIn(c, Replay(s.hist.log), b) {
        KeyListed(c, s, b, k);
      }
    }
  }

  lemma KeyListed(c: Config, s: State, b: nat, key: string)
    requires Global(c, s) && b < c.size && DistinctKeys(s.mem.nodes, s.hist.lists[b])
    ensures key in Keys(s.mem.nodes, s.hist.lists[b]) <==> key in KeysIn(c, Replay(s.hist.log), b)
  {
    var list := s.hist.lists[b];
    var ks := Keys(s.mem.nodes, list);
    if key in ks {
      var i :| 0 <= i < |ks| && ks[i] == key;
      assert Linked(s.hist.place, list[i]);
    }
    if key in KeysIn(c, Replay(s.hist.log), b) {
      assert HasNode(s.mem.nodes, s.hist.place, key);
      var a: Addr :| Linked(s.hist.place, a) && s.mem.nodes[a].key == key;
      assert list[s.hist.place[a].index] == a;
      assert ks[s.hist.place[a].index] == key;
    }
  }

  /** The complexity that README.md claims: a `set` that has returned tried at most as many
      compare-exchanges as there are distinct keys in its bucket, its own included, and a `get` or
      `set` made at most a constant number of accesses more. */
  lemma CostBound(c: Config, s: State, j: nat)
    requires Reachable(c, s) && j < |s.hist.done|
    ensures var d := s.hist.done[j];
            match d.op
            case Get(key) => d.steps <= |KeysIn(c, Replay(s.hist.log), BucketOf(c, key))| + 2
            case Set(key, _) =>
              && 1 <= d.cas <= |KeysIn(c, Replay(s.hist.log), BucketOf(c, key))|
              && d.steps <= |KeysIn(c, Replay(s.hist.log), BucketOf(c, key))| + 3
            case Enumerate => true
  {
    ReachableInv(c, s);
    assert DoneOk(c, s, j);
    match s.hist.done[j].op
    case Get(key) => ListLength(c, s, BucketOf(c, key));
    case Set(key, _) => ListLength(c, s, BucketOf(c, key));
    case Enumerate =>
  }

  lemma FailedCasShape(c: Config, s: State, t: Tid)
    requires CanStep(c, s, t) && s.threads[t].pc.SetAt?
    requires Access(c, s.mem, s.threads[t].pc).effect == Silent
    ensures var th, s' := s.threads[t], StepOf(c, s, t);
            && s.mem.nodes[th.pc.node].key != th.pc.key && s.mem.nodes[th.pc.node].next.Some?
            && t in s'.threads && s'.mem == s.mem && s'.hist == s.hist
            && s'.threads[t].pc == SetAt(th.pc.key, th.pc.value, th.pc.own, s.mem.nodes[th.pc.node].next.value)
  {
  }

  /** A failed compare-exchange changes nothing and leads to a node strictly further down the bucket. */
  lemma FailedCasAdvances(c: Config, s: State, t: Tid)
    requires Reachable(c, s) && CanStep(c, s, t) && s.threads[t].pc.SetAt?
    requires Access(c, s.mem, s.threads[t].pc).effect == Silent
    ensures var s' := StepOf(c, s, t);
            && s'.mem == s.mem && t in s'.threads && s'.threads[t].pc.SetAt?
            && var n, n' := s.threads[t].pc.node, s'.threads[t].pc.node;
               && Linked(s.hist.place, n) && Linked(s.hist.place, n')
               && s.hist.place[n'].bucket == s.hist.place[n].bucket == BucketOf(c, s.threads[t].pc.key)
               && s.hist.place[n'].index == s.hist.place[n].index + 1
  {
    ReachableInv(c, s);
    FailedCasShape(c, s, t);
    assert ThreadOk(c, s, t);
    var pc := s.threads[t].pc;
    BehindNext(c, s, pc.key, pc.node, s.mem.nodes[pc.node].next.value);
  }

  // ---------------------------------------------------------------- enumeration

  /** What an enumeration that ran beside any `set`s may be relied on for. */
  ghost predicate WeaklyConsistent(log: seq<Lin>, d: Done)
    requires d.res.Listed? && d.since <= d.until <= |log|
  {
    var seen := d.res.visits;
    // no key twice,
    && (forall x, y | 0 <= x < y < |seen| :: seen[x].key != seen[y].key)
    // every key that was there at the start,
    && (forall k | k in Replay(log[..d.since]) :: Visited(seen, k))
    // and with each key a value that the map held at some moment in between.
    && (forall x | 0 <= x < |seen| :: HeldDuring(log, d.since, d.until, seen[x].key, seen[x].value))
  }

  ghost predicate HeldDuring(log: seq<Lin>, since: nat, until: nat, key: string, value: string) {
    exists m: nat :: since <= m <= until && Holds(log, m, key, value)
  }

  ghost predicate Holds(log: seq<Lin>, m: nat, key: string, value: string) {
    m <= |log| && key in Replay(log[..m]) && Replay(log[..m])[key] == value
  }

  lemma Enumeration(c: Config, s: State, j: nat)
    requires Reachable(c, s) && j < |s.hist.done| && s.hist.done[j].op.Enumerate?
    ensures var d := s.hist.done[j];
            d.res.Listed? && d.since <= d.until <= |s.hist.log| && WeaklyConsistent(s.hist.log, d)
  {
    ReachableInv(c, s);
    assert DoneOk(c, s, j);
    var d := s.hist.done[j];
    VisitsDiffer(c, s, d.res.visits, d.since, d.moments);
    VisitsCover(c, s, d.res.visits, d.since, d.moments);
    forall x | 0 <= x < |d.res.visits| {
      VisitCurrent(s, d, x, c.size);
    }
  }

  lemma VisitCurrent(s: State, d: Done, x: nat, size: nat)
    requires |s.hist.place| == |s.mem.nodes| && d.res.Listed? && d.since <= d.until <= |s.hist.log|
    requires Enumerated(s.mem.nodes, s.hist.place, s.hist.log, d.res.visits, d.since, d.moments, size, 0)
    requires forall x | 0 <= x < |d.moments| :: d.moments[x] <= d.until
    requires x < |d.res.visits|
    ensures HeldDuring(s.hist.log, d.since, d.until, d.res.visits[x].key, d.res.visits[x].value)
  {
    assert ValidVisit(s.mem.nodes, s.hist.place, s.hist.log, d.res.visits[x], d.since, d.moments[x]);
    assert Holds(s.hist.log, d.moments[x], d.res.visits[x].key, d.res.visits[x].value);
  }

  lemma VisitsDiffer(c: Config, s: State, seen: seq<Visit>, since: nat, moments: seq<nat>)
    requires Lists(c, s) && since <= |s.hist.log|
    requires Enumerated(s.mem.nodes, s.hist.place, s.hist.log, seen, since, moments, c.size, 0)
    ensures forall x, y | 0 <= x < y < |seen| :: seen[x].key != seen[y].key
  {
    forall x, y | 0 <= x < y < |seen| ensures seen[x].key != seen[y].key {
      assert KeysDiffer(s.mem.nodes, s.hist.place, seen[x].node, seen[y].node);
    }
  }

  lemma VisitsCover(c: Config, s: State, seen: seq<Visit>, since: nat, moments: seq<nat>)
    requires Global(c, s) && since <= |s.hist.log|
    requires Enumerated(s.mem.nodes, s.hist.place, s.hist.log, seen, since, moments, c.size, 0)
    ensures forall k | k in Replay(s.hist.log[..since]) :: Visited(seen, k)
  {
    ReplayGrows(s.hist.log[..since], s.hist.log);
    forall k | k in Replay(s.hist.log[..since]) ensures Visited(seen, k) {
      assert k in Replay(s.hist.log);
      assert HasNode(s.mem.nodes, s.hist.place, k);
      var a: Addr :| Linked(s.hist.place, a) && s.mem.nodes[a].key == k;
      assert Earlier(s.hist.place[a], c.size, 0);
    }
  }

  /** When nothing is set meanwhile, an enumeration yields exactly the map. */
  lemma QuiescentEnumeration(c: Config, s: State, j: nat)
    requires Reachable(c, s) && j < |s.hist.done| && s.hist.done[j].op.Enumerate?
    requires var d := s.hist.done[j];
             d.until <= |s.hist.log| && forall i | d.since <= i < d.until :: !s.hist.log[i].op.Set?
    ensures var d := s.hist.done[j];
            && d.res.Listed? && d.since <= |s.hist.log|
            && var seen, m := d.res.visits, Replay(s.hist.log[..d.since]);
               && (forall x, y | 0 <= x < y < |seen| :: seen[x].key != seen[y].key)
               && (forall k | k in m :: Visited(seen, k))
               && (forall x | 0 <= x < |seen| :: seen[x].key in m && m[seen[x].key] == seen[x].value)
  {
    Enumeration(c, s, j);
    var d, log := s.hist.done[j], s.hist.log;
    forall x | 0 <= x < |d.res.visits|
      ensures Holds(log, d.since, d.res.visits[x].key, d.res.visits[x].value)
    {
      assert HeldDuring(log, d.since, d.until, d.res.visits[x].key, d.res.visits[x].value);
      var m: nat :| d.since <= m <= d.until && Holds(log, m, d.res.visits[x].key, d.res.visits[x].value);
      ReadsOnly(log, d.since, m);
    }
  }

  lemma {:induction false} ReadsOnly(log: seq<Lin>, i: nat, j: nat)
    requires i <= j <= |log| && forall k | i <= k < j :: !log[k].op.Set?
    ensures Replay(log[..i]) == Replay(log[..j])
    decreases j
  {
    if i < j {
      ReadsOnly(log, i, j - 1);
      assert log[..j][..j - 1] == log[..j - 1];
    }
  }
}
