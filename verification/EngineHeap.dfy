/** The engine as the source writes it: objects on the heap, changed in place, while other threads run.

    A `DataEngine` carries, as ghost state, the machine state it stands for. The methods perform the
    source's accesses one at a time; after each one, `Tick` takes the matching step of the machine, and
    between any two of them `Interfere` lets the other threads make any steps they like. */
module EngineHeap {
  import opened Options
  import opened EngineMachine
  import opened EngineInvariant
  import opened EngineSteps
  import opened EngineRuns
  import opened EngineTheorems

  class ListNode {
    const key: string
    var value: string
    var next: ListNode?
    ghost var alive: bool

    constructor (key: string, value: string)
      ensures this.key == key && this.value == value && next == null && alive
    {
      this.key, this.value, next, alive := key, value, null, true;
    }

    /** A node can be given back once. */
    method DeleteSelf()
      requires alive
      modifies this
      ensures !alive && value == old(value) && next == old(next)
    {
      alive := false;
    }
  }

  /** Events of other threads than `t` lead from `s` to `s'`. */
  ghost predicate OthersRan(c: Config, s: State, s': State, t: Tid) {
    exists es: seq<Event> :: s' == Run(c, s, es) && forall i | 0 <= i < |es| :: es[i].thread != t
  }

  /** Some events lead from `s` to `s'`. */
  ghost predicate Follows(c: Config, s: State, s': State) {
    exists es: seq<Event> :: s' == Run(c, s, es)
  }

  lemma FollowsOthers(c: Config, s: State, s1: State, s2: State, t: Tid)
    requires Follows(c, s, s1) && OthersRan(c, s1, s2, t)
    ensures Follows(c, s, s2)
  {
    var es: seq<Event> :| s1 == Run(c, s, es);
    var fs: seq<Event> :| s2 == Run(c, s1, fs) && forall i | 0 <= i < |fs| :: fs[i].thread != t;
    RunsCompose(c, s, es, fs);
  }

  lemma FollowsNext(c: Config, s: State, s1: State, e: Event)
    requires Follows(c, s, s1)
    ensures Follows(c, s, Next(c, s1, e))
  {
    var es: seq<Event> :| s1 == Run(c, s, es);
    RunsCompose(c, s, es, [e]);
    assert [e][..0] == [];
    assert Next(c, s1, e) == Run(c, s, es + [e]);
  }

  lemma UnallocatedNotFreed(c: Config, s: State)
    requires Reachable(c, s)
    ensures |s.mem.nodes| !in s.mem.freed
  {
    ReachableInv(c, s);
  }

  lemma NextReachable(c: Config, s: State, e: Event)
    requires Reachable(c, s)
    ensures Reachable(c, Next(c, s, e))
  {
    var es: seq<Event> :| s == Run(c, Init(c), es);
    assert (es + [e])[..|es + [e]| - 1] == es;
    assert Next(c, s, e) == Run(c, Init(c), es + [e]);
  }

  lemma {:induction false} OthersKeepThread(c: Config, s: State, es: seq<Event>, t: Tid)
    requires forall i | 0 <= i < |es| :: es[i].thread != t
    ensures var s' := Run(c, s, es);
            && (t in s.threads <==> t in s'.threads)
            && (t in s.threads ==> s'.threads[t] == s.threads[t])
    decreases |es|
  {
    if es != [] {
      OthersKeepThread(c, s, es[..|es| - 1], t);
    }
  }

  /** A thread is inside this call, standing at `pc`. */
  ghost predicate InCall(s: State, t: Tid, call: nat, op: Op, since: nat, pc: PC) {
    && t in s.threads
    && s.threads[t].call == call && s.threads[t].op == op && s.threads[t].since == since && s.threads[t].pc == pc
  }

  /** The log has grown, since it was `log`, only by effects of this call. */
  ghost predicate OnlyEffectsOf(log: seq<Lin>, s: State, call: nat) {
    log <= s.hist.log && forall i | |log| <= i < |s.hist.log| :: s.hist.log[i].call == call
  }

  ghost predicate JustReturned(s: State, call: nat, op: Op, since: nat, res: Result) {
    && |s.hist.done| > 0
    && var d := s.hist.done[|s.hist.done| - 1];
       d.call == call && d.op == op && d.since == since && d.res == res
  }

  /** A step of a call leads to its next access, or to its return. */
  lemma StepGoes(c: Config, s: State, t: Tid, call: nat, op: Op, since: nat, pc: PC)
    requires CanStep(c, s, t) && InCall(s, t, call, op, since, pc)
    ensures match Access(c, s.mem, pc).then_
            case Goto(pc') =>
              && InCall(StepOf(c, s, t), t, call, op, since, pc')
              && StepOf(c, s, t).threads[t].steps == s.threads[t].steps + 1
            case Return(res) =>
              t !in StepOf(c, s, t).threads && JustReturned(StepOf(c, s, t), call, op, since, res)
  {
  }

  lemma StepLogs(c: Config, s: State, t: Tid)
    requires CanStep(c, s, t)
    ensures var log, log' := s.hist.log, StepOf(c, s, t).hist.log;
            log' == log || (|log'| == |log| + 1 && log'[..|log|] == log && log'[|log|].call == s.threads[t].call)
  {
  }

  lemma OnlyEffectsStep(c: Config, log: seq<Lin>, s: State, t: Tid, call: nat)
    requires CanStep(c, s, t) && OnlyEffectsOf(log, s, call) && s.threads[t].call == call
    ensures OnlyEffectsOf(log, StepOf(c, s, t), call)
  {
    StepLogs(c, s, t);
    var log' := StepOf(c, s, t).hist.log;
    assert log'[..|s.hist.log|] == s.hist.log;
  }

  /** How many nodes a call that stands at `pc` has created. */
  function Created(pc: PC): nat {
    if pc.Owned().Some? then 1 else 0
  }

  lemma StepCreates(c: Config, s: State, t: Tid)
    requires CanStep(c, s, t)
    ensures var pc, n := s.threads[t].pc, |StepOf(c, s, t).mem.nodes| - |s.mem.nodes|;
            match Access(c, s.mem, pc).then_
            case Goto(pc') => Created(pc') == Created(pc) + n
            case Return(res) => n == 0 && Created(pc) == if res.Stored? then 1 else 0
  {
  }

  /** Thread `t` runs the call that it began in `s0`, and stands at `pc`. */
  ghost predicate CallRuns(c: Config, s0: State, s: State, t: Tid, op: Op, pc: PC, alone: bool) {
    && Follows(c, s0, s)
    && InCall(s, t, |s0.hist.calls|, op, |s0.hist.log|, pc)
    && (alone ==> OnlyEffectsOf(s0.hist.log, s, |s0.hist.calls|) && |s.mem.nodes| == |s0.mem.nodes| + Created(pc))
  }

  /** The call that thread `t` began in `s0` has just returned. */
  ghost predicate Completed(c: Config, s0: State, s: State, t: Tid, op: Op, res: Result, alone: bool) {
    && Follows(c, s0, s) && t !in s.threads
    && JustReturned(s, |s0.hist.calls|, op, |s0.hist.log|, res)
    && (alone ==> OnlyEffectsOf(s0.hist.log, s, |s0.hist.calls|)
                  && |s.mem.nodes| == |s0.mem.nodes| + if res.Stored? then 1 else 0)
  }

  lemma CallSteps(c: Config, s0: State, s: State, t: Tid, op: Op, pc: PC, alone: bool)
    requires CanStep(c, s, t) && CallRuns(c, s0, s, t, op, pc, alone)
    ensures match Access(c, s.mem, pc).then_
            case Goto(pc') =>
              && CallRuns(c, s0, StepOf(c, s, t), t, op, pc', alone)
              && StepOf(c, s, t).threads[t].steps == s.threads[t].steps + 1
            case Return(res) => Completed(c, s0, StepOf(c, s, t), t, op, res, alone)
  {
    StepGoes(c, s, t, |s0.hist.calls|, op, |s0.hist.log|, pc);
    FollowsNext(c, s0, s, Step(t));
    if alone {
      OnlyEffectsStep(c, s0.hist.log, s, t, |s0.hist.calls|);
      StepCreates(c, s, t);
    }
  }

  lemma LastEffect(c: Config, s: State, call: nat, op: Op, since: nat, res: Result) returns (at: nat)
    requires Reachable(c, s) && JustReturned(s, call, op, since, res) && !op.Enumerate?
    ensures since <= at < |s.hist.log| && s.hist.log[at] == Lin(call, op, res)
    ensures Legal(s.hist.log) && Once(s.hist.log)
  {
    ReachableInv(c, s);
    at := TookEffect(c, s, |s.hist.done| - 1);
    Linearizability(c, s);
  }

  /** Whatever ran beside it: a completed get or set took effect at one moment between its call and
      its return, and its answer is the plain map's at that moment. */
  lemma CompletedAtOnce(c: Config, s0: State, s: State, t: Tid, op: Op, res: Result, alone: bool) returns (at: nat)
    requires Reachable(c, s0) && Reachable(c, s) && Completed(c, s0, s, t, op, res, alone) && !op.Enumerate?
    ensures s0.hist.log <= s.hist.log && |s0.hist.log| <= at < |s.hist.log| && s.hist.log[at].op == op
    ensures res == Answer(Replay(s.hist.log[..at]), op)
    ensures Replay(s.hist.log[..at + 1]) == Update(Replay(s.hist.log[..at]), op)
  {
    at := LastEffect(c, s, |s0.hist.calls|, op, |s0.hist.log|, res);
    assert s.hist.log[..at + 1][..at] == s.hist.log[..at];
    LogGrows(c, s0, s);
  }

  lemma LogGrows(c: Config, s0: State, s: State)
    requires Reachable(c, s0) && exists es :: s == Run(c, s0, es)
    ensures s0.hist.log <= s.hist.log
  {
    var es: seq<Event> :| s == Run(c, s0, es);
    ReachableInv(c, s0);
    RunEvolves(c, s0, es);
  }

  /** A get or set that ran alone added exactly its own effect to the log, and got the map's answer. */
  lemma EffectAlone(c: Config, log: seq<Lin>, s: State, call: nat, op: Op, res: Result)
    requires Reachable(c, s) && JustReturned(s, call, op, |log|, res) && !op.Enumerate?
    requires OnlyEffectsOf(log, s, call)
    ensures s.hist.log == log + [Lin(call, op, res)]
    ensures res == Answer(Replay(log), op) && Replay(s.hist.log) == Update(Replay(log), op)
  {
    var at := LastEffect(c, s, call, op, |log|, res);
    SoleEffect(log, s.hist.log, call, at);
    assert s.hist.log[..at] == log;
    ReplayPush(log, Lin(call, op, res));
  }

  lemma SoleEffect(log: seq<Lin>, log': seq<Lin>, call: nat, at: nat)
    requires log <= log' && |log| <= at < |log'| && Once(log')
    requires forall i | |log| <= i < |log'| :: log'[i].call == call
    ensures at == |log| && log' == log + [log'[at]]
  {
    assert log'[|log|].call == call && log'[|log'| - 1].call == call;
  }

  lemma {:induction false} DistinctFit(list: seq<nat>, n: nat)
    requires forall i | 0 <= i < |list| :: list[i] < n
    requires forall i, j | 0 <= i < j < |list| :: list[i] != list[j]
    ensures |list| <= n
    decreases n
  {
    if n > 0 {
      if n - 1 in list {
        var i :| 0 <= i < |list| && list[i] == n - 1;
        var rest := list[..i] + list[i + 1..];
        forall k | 0 <= k < |rest| ensures rest[k] == list[if k < i then k else k + 1] < n - 1 {
        }
        DistinctFit(rest, n - 1);
      } else {
        DistinctFit(list, n - 1);
      }
    }
  }

  /** A call's number of steps is bounded by the number of nodes: walks end. */
  lemma StepsBounded(c: Config, s: State, t: Tid)
    requires Reachable(c, s) && t in s.threads && (s.threads[t].pc.GetAt? || s.threads[t].pc.SetAt?)
    ensures s.threads[t].steps <= |s.mem.nodes| + 1
  {
    ReachableInv(c, s);
    assert ThreadOk(c, s, t);
    var b := BucketOf(c, s.threads[t].pc.key);
    ListKeys(c, s, b);
    DistinctFit(s.hist.lists[b], |s.mem.nodes|);
  }

  lemma EnumLogsNothing(c: Config, s: State, t: Tid)
    requires CanStep(c, s, t)
    requires s.threads[t].pc.EnumHead? || s.threads[t].pc.EnumAt? || s.threads[t].pc.EnumNext?
    ensures StepOf(c, s, t).hist.log == s.hist.log
  {
  }

  function Nodes(visits: seq<Visit>): (nodes: seq<nat>) {
    seq(|visits|, i requires 0 <= i < |visits| => visits[i].node)
  }

  lemma VisitedNodesDiffer(nodes: seq<Node>, place: seq<Place>, log: seq<Lin>, seen: seq<Visit>, since: nat,
                           moments: seq<nat>, bucket: nat, index: nat)
    requires |place| == |nodes| && since <= |log|
    requires Enumerated(nodes, place, log, seen, since, moments, bucket, index)
    ensures |seen| <= |nodes|
  {
    forall x | 0 <= x < |seen| ensures Linked(place, seen[x].node) {
      assert ValidVisit(nodes, place, log, seen[x], since, moments[x]);
    }
    DistinctFit(Nodes(seen), |nodes|);
  }

  /** An enumeration visits no node twice: it ends. */
  lemma VisitsBounded(c: Config, s: State, t: Tid)
    requires Reachable(c, s) && t in s.threads && s.threads[t].pc.EnumNext?
    ensures |s.threads[t].pc.seen| <= |s.mem.nodes|
  {
    ReachableInv(c, s);
    assert ThreadOk(c, s, t);
    var th := s.threads[t];
    VisitedNodesDiffer(s.mem.nodes, s.hist.place, s.hist.log, th.pc.seen, th.since, th.moments,
                       th.pc.bucket, Frontier(s.hist.place, th.pc));
  }

  function Pairs(visits: seq<Visit>): (pairs: seq<(string, string)>) {
    seq(|visits|, i requires 0 <= i < |visits| => (visits[i].key, visits[i].value))
  }

  /** Each key of the map once, with its value, and nothing else. */
  ghost predicate ListsExactly(pairs: seq<(string, string)>, m: Contents) {
    && (forall x, y | 0 <= x < y < |pairs| :: pairs[x].0 != pairs[y].0)
    && (forall x | 0 <= x < |pairs| :: pairs[x].0 in m && m[pairs[x].0] == pairs[x].1)
    && (forall k | k in m :: exists x :: 0 <= x < |pairs| && pairs[x].0 == k)
  }

  lemma PairsList(visits: seq<Visit>, m: Contents)
    requires forall x, y | 0 <= x < y < |visits| :: visits[x].key != visits[y].key
    requires forall k | k in m :: Visited(visits, k)
    requires forall x | 0 <= x < |visits| :: visits[x].key in m && m[visits[x].key] == visits[x].value
    ensures ListsExactly(Pairs(visits), m)
  {
    var pairs := Pairs(visits);
    forall k | k in m ensures exists x :: 0 <= x < |pairs| && pairs[x].0 == k {
      assert Visited(visits, k);
      var x :| 0 <= x < |visits| && visits[x].key == k;
      assert pairs[x].0 == k;
    }
  }

  lemma ListedAlone(c: Config, log: seq<Lin>, s: State, call: nat, visits: seq<Visit>)
    requires Reachable(c, s) && s.hist.log == log
    requires JustReturned(s, call, EngineMachine.Enumerate, |log|, Listed(visits))
    ensures ListsExactly(Pairs(visits), Replay(log))
  {
    Enumeration(c, s, |s.hist.done| - 1);
    QuiescentEnumeration(c, s, |s.hist.done| - 1);
    assert log[..|log|] == log;
    PairsList(visits, Replay(log));
  }

  function GetResult(res: Option<string>): Result {
    match res
    case Some(value) => Found(value)
    case None => Missing
  }

  class DataEngine {
    const hash: string -> nat
    const capacity: nat        // how many nodes memory can hold
    ghost const config: Config
    var buckets: array<ListNode?>
    var hits: nat
    var misses: nat
    ghost var objs: seq<ListNode>
    ghost var state: State

    ghost predicate Refers(p: ListNode?, a: Option<Addr>)
      reads this
    {
      match a
      case None => p == null
      case Some(a) => a < |objs| && p == objs[a]
    }

    ghost predicate NodeMirrors(n: Node, freed: bool, a: Addr)
      requires a < |objs|
      reads this, objs
    {
      && objs[a].key == n.key && objs[a].value == n.value
      && Refers(objs[a].next, n.next)
      && (objs[a].alive <==> !freed)
    }

    /** The heap holds exactly this memory. */
    ghost predicate Mirrors(m: Memory)
      reads this, buckets, objs
    {
      && |m.buckets| == buckets.Length && |m.nodes| == |objs| <= capacity
      && hits == m.hits && misses == m.misses
      && (forall i, j | 0 <= i < j < |objs| :: objs[i] != objs[j])
      && (forall b | 0 <= b < buckets.Length :: Refers(buckets[b], m.buckets[b]))
      && (forall a | 0 <= a < |objs| :: NodeMirrors(m.nodes[a], a in m.freed, a))
    }

    ghost predicate Valid()
      reads this, buckets, objs
    {
      && hash == config.hash && buckets.Length == config.size
      && Reachable(config, state)
      && Mirrors(state.mem)
    }

    /** Nodes are only added. */
    twostate predicate Grown()
      reads this
    {
      && buckets == old(buckets) && old(objs) <= objs
      && forall i | |old(objs)| <= i < |objs| :: fresh(objs[i])
    }

    /** What the engine holds. */
    ghost function Holding(): Contents
      reads this
    {
      Replay(state.hist.log)
    }

    constructor (hash: string -> nat, bucketCount: nat, capacity: nat)
      requires bucketCount > 0
      ensures Valid() && fresh(buckets) && objs == [] && Holding() == map[] && state.threads == map[]
      ensures config == RawConfig(hash, bucketCount) && this.hash == hash && this.capacity == capacity
    {
      this.hash, this.capacity := hash, capacity;
      config := RawConfig(hash, bucketCount);
      buckets := new ListNode?[bucketCount](i => null);
      hits, misses, objs := 0, 0, [];
      state := Init(RawConfig(hash, bucketCount));
      new;
      assert state == Run(config, Init(config), []);
    }

    // ------------------------------------------------------------ steps

    /** A call begins. */
    ghost method Begin(t: Tid, op: Op)
      requires Valid() && t !in state.threads
      modifies this`state
      ensures Valid() && state == InvokeOf(old(state), t, op)
    {
      NextReachable(config, state, Invoke(t, op));
      state := Next(config, state, Invoke(t, op));
    }

    /** The access just performed on the heap is the next step of thread `t`. */
    ghost method Tick(t: Tid, m: Memory)
      requires hash == config.hash && buckets.Length == config.size && Reachable(config, state)
      requires CanStep(config, state, t) && StepOf(config, state, t).mem == m && Mirrors(m)
      modifies this`state
      ensures Valid() && state == StepOf(config, old(state), t)
    {
      NextReachable(config, state, Step(t));
      state := Next(config, state, Step(t));
    }

    /** Whatever the other threads do meanwhile. The body does nothing: all that a caller learns is
        the contract, which allows any steps of threads other than `t`, unless it runs alone. */
    method Environment(ghost t: Tid, ghost alone: bool)
      requires Valid()
      modifies this, buckets, objs
      ensures Valid() && Grown()
      ensures OthersRan(config, old(state), state, t)
      ensures alone ==> state == old(state)
    {
      assert state == Run(config, state, []);
    }

    method Interfere(ghost t: Tid, ghost alone: bool)
      requires Valid() && t in state.threads
      modifies this, buckets, objs
      ensures Valid() && Grown()
      ensures OthersRan(config, old(state), state, t)
      ensures t in state.threads && state.threads[t] == old(state.threads[t]) && CanStep(config, state, t)
      ensures alone ==> state == old(state)
    {
      ghost var before := state;
      Environment(t, alone);
      ghost var es: seq<Event> :| state == Run(config, before, es) && forall i | 0 <= i < |es| :: es[i].thread != t;
      OthersKeepThread(config, before, es, t);
      EveryAccessIsSafe(config, state, t);
    }

    // ------------------------------------------------------------ atomic accesses
    // Each is one step of the thread that performs it.

    method LoadBucket(ghost t: Tid, b: nat) returns (node: ListNode?)
      requires Valid() && CanStep(config, state, t) && b < buckets.Length
      requires match state.threads[t].pc
               case GetHead(key) => BucketOf(config, key) == b
               case EnumHead(bucket, _) => bucket == b
               case _ => false
      modifies this`state
      ensures Valid()
      ensures state == StepOf(config, old(state), t) && Refers(node, old(state).mem.buckets[b])
    {
      node := buckets[b];
      Tick(t, state.mem);
    }

    method LoadNext(ghost t: Tid, node: ListNode) returns (next: ListNode?)
      requires Valid() && CanStep(config, state, t) && Refers(node, state.threads[t].pc.Target())
      requires match state.threads[t].pc
               case GetAt(key, _) => key != node.key
               case EnumNext(_, _, _) => true
               case _ => false
      modifies this`state
      ensures Valid()
      ensures state == StepOf(config, old(state), t) && Refers(next, old(state).mem.nodes[old(state).threads[t].pc.node].next)
    {
      ghost var a := state.threads[t].pc.node;
      assert NodeMirrors(state.mem.nodes[a], a in state.mem.freed, a);
      assert node.alive;
      next := node.next;
      Tick(t, state.mem);
    }

    method LoadValue(ghost t: Tid, node: ListNode) returns (value: string)
      requires Valid() && CanStep(config, state, t) && Refers(node, state.threads[t].pc.Target())
      requires state.threads[t].pc.GetValue? || state.threads[t].pc.EnumAt?
      modifies this`state
      ensures Valid()
      ensures state == StepOf(config, old(state), t) && value == old(state).mem.nodes[old(state).threads[t].pc.node].value
    {
      ghost var a := state.threads[t].pc.node;
      assert NodeMirrors(state.mem.nodes[a], a in state.mem.freed, a);
      assert node.alive;
      value := node.value;
      Tick(t, state.mem);
    }

    method CountHit(ghost t: Tid, node: ListNode)
      requires Valid() && CanStep(config, state, t) && Refers(node, state.threads[t].pc.Target())
      requires state.threads[t].pc.GetAt? && state.threads[t].pc.key == node.key
      modifies this`hits, this`state
      ensures Valid()
      ensures state == StepOf(config, old(state), t)
    {
      ghost var a := state.threads[t].pc.node;
      assert NodeMirrors(state.mem.nodes[a], a in state.mem.freed, a);
      assert node.alive;
      hits := (hits + 1) % COUNTER_RANGE;
      Tick(t, state.mem.(hits := Bump(state.mem.hits)));
    }

    method CountMiss(ghost t: Tid)
      requires Valid() && CanStep(config, state, t) && state.threads[t].pc.GetMiss?
      modifies this`misses, this`state
      ensures Valid()
      ensures state == StepOf(config, old(state), t)
    {
      misses := (misses + 1) % COUNTER_RANGE;
      Tick(t, state.mem.(misses := Bump(state.mem.misses)));
    }

    /** `m_buckets[b].compare_exchange_strong(node, own)` with `node` null. */
    method ExchangeBucket(ghost t: Tid, b: nat, own: ListNode)
      returns (exchanged: bool, node: ListNode?)
      requires Valid() && CanStep(config, state, t) && b < buckets.Length && Refers(own, state.threads[t].pc.Owned())
      requires state.threads[t].pc.SetHead? && BucketOf(config, state.threads[t].pc.key) == b
      modifies buckets, this`state
      ensures Valid()
      ensures state == StepOf(config, old(state), t) && Refers(node, old(state).mem.buckets[b])
      ensures exchanged <==> node == null
    {
      node := buckets[b];
      exchanged := node == null;
      if exchanged {
        buckets[b] := own;
        Tick(t, state.mem.(buckets := state.mem.buckets[b := state.threads[t].pc.Owned()]));
      } else {
        Tick(t, state.mem);
      }
    }

    /** `node->m_next.compare_exchange_strong(next, own)` with `next` null. */
    method ExchangeNext(ghost t: Tid, node: ListNode, own: ListNode)
      returns (exchanged: bool, next: ListNode?)
      requires Valid() && CanStep(config, state, t) && Refers(own, state.threads[t].pc.Owned())
      requires Refers(node, state.threads[t].pc.Target())
      requires state.threads[t].pc.SetAt? && state.threads[t].pc.key != node.key
      modifies objs, this`state
      ensures Valid()
      ensures state == StepOf(config, old(state), t) && Refers(next, old(state).mem.nodes[old(state).threads[t].pc.node].next)
      ensures exchanged <==> next == null
    {
      ghost var a := state.threads[t].pc.node;
      assert NodeMirrors(state.mem.nodes[a], a in state.mem.freed, a);
      assert node.alive;
      next := node.next;
      exchanged := next == null;
      if exchanged {
        node.next := own;
        ghost var n := state.mem.nodes[a].(next := state.threads[t].pc.Owned());
        Tick(t, state.mem.(nodes := state.mem.nodes[a := n]));
      } else {
        Tick(t, state.mem);
      }
    }

    /** `node->m_ptrValue.store(own->m_ptrValue)` */
    method StoreValue(ghost t: Tid, node: ListNode, own: ListNode)
      requires Valid() && CanStep(config, state, t) && Refers(own, state.threads[t].pc.Owned())
      requires Refers(node, state.threads[t].pc.Target())
      requires state.threads[t].pc.SetAt? && state.threads[t].pc.key == node.key
      modifies objs, this`state
      ensures Valid()
      ensures state == StepOf(config, old(state), t)
    {
      ghost var a := state.threads[t].pc.node;
      assert NodeMirrors(state.mem.nodes[a], a in state.mem.freed, a);
      assert node.alive;
      ghost var o := state.threads[t].pc.own;
      assert NodeMirrors(state.mem.nodes[o], o in state.mem.freed, o);
      assert own.alive;
      node.value := own.value;
      Tick(t, state.mem.(nodes := state.mem.nodes[a := state.mem.nodes[a].(value := own.value)]));
    }

    /** The destructor of the unique pointer that still owns the new node. */
    method DeleteOwn(ghost t: Tid, own: ListNode)
      requires Valid() && CanStep(config, state, t) && Refers(own, state.threads[t].pc.Owned())
      requires state.threads[t].pc.SetDelete?
      modifies objs, this`state
      ensures Valid()
      ensures state == StepOf(config, old(state), t)
    {
      ghost var o := state.threads[t].pc.own;
      assert NodeMirrors(state.mem.nodes[o], o in state.mem.freed, o);
      own.DeleteSelf();
      Tick(t, state.mem.(freed := state.mem.freed + {o}));
    }

    method CreateNode(ghost t: Tid, key: string, value: string) returns (own: ListNode)
      requires Valid() && t in state.threads && CanStep(config, state, t) && |objs| < capacity
      requires state.threads[t].pc == SetNew(key, value)
      modifies this`objs, this`state
      ensures Valid() && buckets == old(buckets) && objs == old(objs) + [own] && fresh(own)
      ensures state == StepOf(config, old(state), t)
    {
      own := new ListNode(key, value);
      UnallocatedNotFreed(config, state);
      ghost var m := state.mem.(nodes := state.mem.nodes + [Node(key, value, None)]);
      objs := objs + [own];
      forall a | 0 <= a < |objs| ensures NodeMirrors(m.nodes[a], a in m.freed, a) {
        if a < |old(objs)| {
          assert old(NodeMirrors(state.mem.nodes[a], a in state.mem.freed, a));
        }
      }
      Tick(t, m);
    }

    // ------------------------------------------------------------ calls

    ghost method BeginCall(t: Tid, op: Op, alone: bool)
      requires Valid() && t !in state.threads
      modifies this`state
      ensures Valid() && state == InvokeOf(old(state), t, op)
      ensures CallRuns(config, old(state), state, t, op, EngineMachine.Start(op), alone)
    {
      assert state == Run(config, state, []);
      FollowsNext(config, state, state, Invoke(t, op));
      Begin(t, op);
    }

    /** The others run; the call stays where it is. */
    method Pause(ghost s0: State, ghost t: Tid, ghost op: Op, ghost pc: PC, ghost alone: bool)
      requires Valid() && CallRuns(config, s0, state, t, op, pc, alone)
      modifies this, buckets, objs
      ensures Valid() && Grown()
      ensures CallRuns(config, s0, state, t, op, pc, alone) && CanStep(config, state, t)
      ensures state.threads[t].steps == old(state).threads[t].steps
      ensures alone ==> state == old(state)
    {
      ghost var before := state;
      Interfere(t, alone);
      FollowsOthers(config, s0, before, state, t);
    }

    /** The answer is the one of the plain map at a moment between the call and the return: that is
        what `Completed` means in a reachable state. A call that runs alone answers from what the
        engine held when it began, and leaves that as it is. */
    method Get(ghost t: Tid, key: string, ghost alone: bool) returns (res: Option<string>)
      requires Valid() && t !in state.threads
      modifies this, buckets, objs
      ensures Valid() && Grown()
      ensures Completed(config, old(state), state, t, EngineMachine.Get(key), GetResult(res), alone)
      ensures alone ==> Holding() == old(Holding())
                        && res == if key in old(Holding()) then Some(old(Holding())[key]) else None
    {
      ghost var s0 := state;
      BeginCall(t, EngineMachine.Get(key), alone);
      res := GetFound(s0, t, key, alone);
      if alone {
        EffectAlone(config, s0.hist.log, state, |s0.hist.calls|, EngineMachine.Get(key), GetResult(res));
      }
    }

    method GetFound(ghost s0: State, ghost t: Tid, key: string, ghost alone: bool) returns (res: Option<string>)
      requires Valid() && CallRuns(config, s0, state, t, EngineMachine.Get(key), GetHead(key), alone)
      modifies this, buckets, objs
      ensures Valid() && Grown()
      ensures Completed(config, s0, state, t, EngineMachine.Get(key), GetResult(res), alone)
    {
      var node := GetFirst(s0, t, key, hash(key) % buckets.Length, alone);
      while node != null
        invariant Valid() && Grown() && GetGoes(s0, t, key, node, alone)
        decreases if node == null then 0 else Left(t)
      {
        if node.key == key {
          res := GetRead(s0, t, key, node, alone);
          return;
        }
        node := GetMove(s0, t, key, node, alone);
      }
      GetMissed(s0, t, key, alone);
      res := None;
    }

    /** How many more steps a walk can take. */
    ghost function Left(t: Tid): nat
      reads this
    {
      if t in state.threads && state.threads[t].steps <= capacity + 1 then capacity + 2 - state.threads[t].steps else 0
    }

    /** A `get` has come to the pointer `node`. */
    ghost predicate GetGoes(s0: State, t: Tid, key: string, node: ListNode?, alone: bool)
      reads this
    {
      if node == null then CallRuns(config, s0, state, t, EngineMachine.Get(key), GetMiss(key), alone)
      else GetStands(s0, t, key, node, alone)
    }

    /** A `get` stands at `node`. */
    ghost predicate GetStands(s0: State, t: Tid, key: string, node: ListNode, alone: bool)
      reads this
    {
      && t in state.threads && state.threads[t].pc.GetAt?
      && CallRuns(config, s0, state, t, EngineMachine.Get(key), state.threads[t].pc, alone)
      && state.threads[t].pc.key == key && Refers(node, Some(state.threads[t].pc.node))
    }

    method GetFirst(ghost s0: State, ghost t: Tid, key: string, b: nat, ghost alone: bool) returns (node: ListNode?)
      requires Valid() && CallRuns(config, s0, state, t, EngineMachine.Get(key), GetHead(key), alone)
      requires b == BucketOf(config, key)
      modifies this, buckets, objs
      ensures Valid() && Grown()
      ensures GetGoes(s0, t, key, node, alone)
    {
      Pause(s0, t, EngineMachine.Get(key), GetHead(key), alone);
      CallSteps(config, s0, state, t, EngineMachine.Get(key), GetHead(key), alone);
      node := LoadBucket(t, b);
    }

    method GetMove(ghost s0: State, ghost t: Tid, key: string, node: ListNode, ghost alone: bool)
      returns (next: ListNode?)
      requires Valid() && GetStands(s0, t, key, node, alone) && node.key != key
      modifies this, buckets, objs
      ensures Valid() && Grown()
      ensures GetGoes(s0, t, key, next, alone)
      ensures (if next == null then 0 else Left(t)) < old(Left(t))
    {
      StepsBounded(config, state, t);
      ghost var pc := state.threads[t].pc;
      Pause(s0, t, EngineMachine.Get(key), pc, alone);
      CallSteps(config, s0, state, t, EngineMachine.Get(key), pc, alone);
      next := LoadNext(t, node);
      if next != null {
        StepsBounded(config, state, t);
      }
    }

    method GetMissed(ghost s0: State, ghost t: Tid, key: string, ghost alone: bool)
      requires Valid() && CallRuns(config, s0, state, t, EngineMachine.Get(key), GetMiss(key), alone)
      modifies this, buckets, objs
      ensures Valid() && Grown()
      ensures Completed(config, s0, state, t, EngineMachine.Get(key), Missing, alone)
    {
      Pause(s0, t, EngineMachine.Get(key), GetMiss(key), alone);
      CallSteps(config, s0, state, t, EngineMachine.Get(key), GetMiss(key), alone);
      CountMiss(t);
    }

    method GetRead(ghost s0: State, ghost t: Tid, key: string, node: ListNode, ghost alone: bool)
      returns (res: Option<string>)
      requires Valid() && GetStands(s0, t, key, node, alone) && node.key == key
      modifies this, buckets, objs
      ensures Valid() && Grown()
      ensures Completed(config, s0, state, t, EngineMachine.Get(key), GetResult(res), alone)
    {
      ghost var pc := state.threads[t].pc;
      Pause(s0, t, EngineMachine.Get(key), pc, alone);
      CallSteps(config, s0, state, t, EngineMachine.Get(key), pc, alone);
      CountHit(t, node);
      Pause(s0, t, EngineMachine.Get(key), GetValue(key, pc.node), alone);
      CallSteps(config, s0, state, t, EngineMachine.Get(key), GetValue(key, pc.node), alone);
      var value := LoadValue(t, node);
      res := Some(value);
    }

    /** The new value takes effect once, between the call and the return. A call that runs alone sets
        the key in what the engine holds and changes nothing else. There must be memory for the node. */
    method Set(ghost t: Tid, key: string, value: string, ghost alone: bool)
      requires Valid() && t !in state.threads && |objs| < capacity
      modifies this, buckets, objs
      ensures Valid() && Grown()
      ensures Completed(config, old(state), state, t, EngineMachine.Set(key, value), Stored, alone)
      ensures alone ==> Holding() == old(Holding())[key := value] && |objs| == |old(objs)| + 1
    {
      ghost var s0 := state;
      BeginCall(t, EngineMachine.Set(key, value), alone);
      SetNewNode(s0, t, key, value, alone);
      if alone {
        EffectAlone(config, s0.hist.log, state, |s0.hist.calls|, EngineMachine.Set(key, value), Stored);
      }
    }

    /** The compare-exchanges of a `set`, from the head of the bucket to the end of its list. */
    method SetNewNode(ghost s0: State, ghost t: Tid, key: string, value: string, ghost alone: bool)
      requires Valid() && |objs| < capacity
      requires CallRuns(config, s0, state, t, EngineMachine.Set(key, value), SetNew(key, value), alone)
      modifies this, buckets, objs
      ensures Valid() && Grown()
      ensures Completed(config, s0, state, t, EngineMachine.Set(key, value), Stored, alone)
    {
      var own := SetCreate(s0, t, key, value, alone);
      var exchanged, node := SetFirst(s0, t, key, value, hash(key) % buckets.Length, own, alone);
      while !exchanged
        invariant Valid() && Grown() && SetGoes(s0, t, key, value, own, exchanged, node, alone)
        decreases if exchanged then 0 else Left(t) + 1
      {
        if node.key == key {
          SetExisting(s0, t, key, value, own, node, alone);
          return;
        }
        exchanged, node := SetMove(s0, t, key, value, own, node, alone);
      }
    }

    method SetCreate(ghost s0: State, ghost t: Tid, key: string, value: string, ghost alone: bool) returns (own: ListNode)
      requires Valid() && |objs| < capacity
      requires CallRuns(config, s0, state, t, EngineMachine.Set(key, value), SetNew(key, value), alone)
      modifies this, buckets, objs
      ensures Valid() && Grown() && SetOwns(s0, t, key, value, own, alone)
    {
      EveryAccessIsSafe(config, state, t);
      CallSteps(config, s0, state, t, EngineMachine.Set(key, value), SetNew(key, value), alone);
      own := CreateNode(t, key, value);
    }

    /** A `set` has created `own` and will try the head of the bucket. */
    ghost predicate SetOwns(s0: State, t: Tid, key: string, value: string, own: ListNode, alone: bool)
      reads this
    {
      && t in state.threads && state.threads[t].pc.SetHead?
      && CallRuns(config, s0, state, t, EngineMachine.Set(key, value), state.threads[t].pc, alone)
      && state.threads[t].pc.key == key && state.threads[t].pc.value == value
      && Refers(own, Some(state.threads[t].pc.own))
    }

    /** A `set` of `own` stands at `node`. */
    ghost predicate SetStands(s0: State, t: Tid, key: string, value: string, own: ListNode, node: ListNode, alone: bool)
      reads this
    {
      && t in state.threads && state.threads[t].pc.SetAt?
      && CallRuns(config, s0, state, t, EngineMachine.Set(key, value), state.threads[t].pc, alone)
      && state.threads[t].pc.key == key && state.threads[t].pc.value == value
      && Refers(own, Some(state.threads[t].pc.own)) && Refers(node, Some(state.threads[t].pc.node))
    }

    /** After a compare-exchange: it succeeded and the call is over, or it found a node. */
    ghost predicate SetGoes(s0: State, t: Tid, key: string, value: string, own: ListNode,
                            exchanged: bool, node: ListNode?, alone: bool)
      reads this
    {
      if exchanged then Completed(config, s0, state, t, EngineMachine.Set(key, value), Stored, alone)
      else node != null && SetStands(s0, t, key, value, own, node, alone)
    }

    method SetFirst(ghost s0: State, ghost t: Tid, key: string, value: string, b: nat, own: ListNode, ghost alone: bool)
      returns (exchanged: bool, node: ListNode?)
      requires Valid() && SetOwns(s0, t, key, value, own, alone) && b == BucketOf(config, key)
      modifies this, buckets, objs
      ensures Valid() && Grown()
      ensures SetGoes(s0, t, key, value, own, exchanged, node, alone)
    {
      ghost var pc := state.threads[t].pc;
      Pause(s0, t, EngineMachine.Set(key, value), pc, alone);
      CallSteps(config, s0, state, t, EngineMachine.Set(key, value), pc, alone);
      exchanged, node := ExchangeBucket(t, b, own);
    }

    method SetMove(ghost s0: State, ghost t: Tid, key: string, value: string, own: ListNode, node: ListNode, ghost alone: bool)
      returns (exchanged: bool, next: ListNode?)
      requires Valid() && SetStands(s0, t, key, value, own, node, alone) && node.key != key
      modifies this, buckets, objs
      ensures Valid() && Grown()
      ensures SetGoes(s0, t, key, value, own, exchanged, next, alone)
      ensures (if exchanged then 0 else Left(t) + 1) < old(Left(t)) + 1
    {
      StepsBounded(config, state, t);
      ghost var pc := state.threads[t].pc;
      Pause(s0, t, EngineMachine.Set(key, value), pc, alone);
      CallSteps(config, s0, state, t, EngineMachine.Set(key, value), pc, alone);
      exchanged, next := ExchangeNext(t, node, own);
      if !exchanged {
        StepsBounded(config, state, t);
      }
    }

    /** The key is there: its node takes the value over, and the new node goes. */
    method SetExisting(ghost s0: State, ghost t: Tid, key: string, value: string, own: ListNode, node: ListNode, ghost alone: bool)
      requires Valid() && SetStands(s0, t, key, value, own, node, alone) && node.key == key
      modifies this, buckets, objs
      ensures Valid() && Grown()
      ensures Completed(config, s0, state, t, EngineMachine.Set(key, value), Stored, alone)
    {
      ghost var pc := state.threads[t].pc;
      Pause(s0, t, EngineMachine.Set(key, value), pc, alone);
      CallSteps(config, s0, state, t, EngineMachine.Set(key, value), pc, alone);
      StoreValue(t, node, own);
      SetDropsOwn(s0, t, key, value, own, alone);
    }

    method SetDropsOwn(ghost s0: State, ghost t: Tid, key: string, value: string, own: ListNode, ghost alone: bool)
      requires Valid() && t in state.threads && state.threads[t].pc.SetDelete?
      requires CallRuns(config, s0, state, t, EngineMachine.Set(key, value), state.threads[t].pc, alone)
      requires Refers(own, Some(state.threads[t].pc.own))
      modifies this, buckets, objs
      ensures Valid() && Grown()
      ensures Completed(config, s0, state, t, EngineMachine.Set(key, value), Stored, alone)
    {
      ghost var pc := state.threads[t].pc;
      Pause(s0, t, EngineMachine.Set(key, value), pc, alone);
      CallSteps(config, s0, state, t, EngineMachine.Set(key, value), pc, alone);
      DeleteOwn(t, own);
    }

    /** Calls the visitor, here by appending to `seen`, once for each visited node. Beside other
        threads the visits are weakly consistent, as the theorem `Enumeration` says of every returned
        enumeration; alone, they are exactly what the engine holds. */
    method Enumerate(ghost t: Tid, ghost alone: bool) returns (seen: seq<(string, string)>, ghost visits: seq<Visit>)
      requires Valid() && t !in state.threads
      modifies this, buckets, objs
      ensures Valid() && Grown() && seen == Pairs(visits)
      ensures Completed(config, old(state), state, t, EngineMachine.Enumerate, Listed(visits), alone)
      ensures alone ==> Holding() == old(Holding()) && ListsExactly(seen, old(Holding()))
    {
      ghost var s0 := state;
      BeginCall(t, EngineMachine.Enumerate, alone);
      seen, visits := EnumerateBuckets(s0, t, alone);
      if alone {
        ListedAlone(config, s0.hist.log, state, |s0.hist.calls|, visits);
      }
    }

    method EnumerateBuckets(ghost s0: State, ghost t: Tid, ghost alone: bool)
      returns (seen: seq<(string, string)>, ghost visits: seq<Visit>)
      requires Valid() && EnumGoes(s0, t, 0, null, [], alone)
      modifies this, buckets, objs
      ensures Valid() && Grown() && seen == Pairs(visits)
      ensures EnumGoes(s0, t, buckets.Length, null, visits, alone)
    {
      seen, visits := [], [];
      var b := 0;
      while b < buckets.Length
        invariant Valid() && Grown() && seen == Pairs(visits)
        invariant b <= buckets.Length && EnumGoes(s0, t, b, null, visits, alone)
      {
        seen, visits := EnumerateBucket(s0, t, b, seen, visits, alone);
        b := b + 1;
      }
    }

    method EnumerateBucket(ghost s0: State, ghost t: Tid, b: nat, before: seq<(string, string)>,
                           ghost visits0: seq<Visit>, ghost alone: bool)
      returns (seen: seq<(string, string)>, ghost visits: seq<Visit>)
      requires Valid() && before == Pairs(visits0) && b < buckets.Length && EnumGoes(s0, t, b, null, visits0, alone)
      modifies this, buckets, objs
      ensures Valid() && Grown() && seen == Pairs(visits)
      ensures EnumGoes(s0, t, b + 1, null, visits, alone)
    {
      seen, visits := before, visits0;
      var node := EnumFirst(s0, t, b, visits, alone);
      while node != null
        invariant Valid() && Grown() && seen == Pairs(visits)
        invariant EnumGoes(s0, t, b + 1, node, visits, alone)
        decreases capacity - |visits|, if node == null then 0 else 1
      {
        node, seen, visits := EnumPass(s0, t, b, node, seen, visits, alone);
      }
    }

    method EnumPass(ghost s0: State, ghost t: Tid, b: nat, node: ListNode, before: seq<(string, string)>,
                    ghost visits: seq<Visit>, ghost alone: bool)
      returns (next: ListNode?, seen: seq<(string, string)>, ghost visits': seq<Visit>)
      requires Valid() && before == Pairs(visits) && EnumGoes(s0, t, b + 1, node, visits, alone)
      modifies this, buckets, objs
      ensures Valid() && Grown() && seen == Pairs(visits') && EnumGoes(s0, t, b + 1, next, visits', alone)
      ensures |visits| < |visits'| && |visits| < capacity
    {
      var value;
      value, visits' := EnumVisit(s0, t, b, node, visits, alone);
      seen := before + [(node.key, value)];
      next := EnumMove(s0, t, b, node, visits', alone);
    }

    /** An enumeration stands at `pc`; alone, nothing has been logged since it began. */
    ghost predicate EnumRuns(s0: State, t: Tid, pc: PC, alone: bool)
      reads this
    {
      CallRuns(config, s0, state, t, EngineMachine.Enumerate, pc, alone) && (alone ==> state.hist.log == s0.hist.log)
    }

    ghost predicate EnumEnds(s0: State, t: Tid, visits: seq<Visit>, alone: bool)
      reads this
    {
      && Completed(config, s0, state, t, EngineMachine.Enumerate, Listed(visits), alone)
      && (alone ==> state.hist.log == s0.hist.log)
    }

    /** An enumeration has come to the pointer `node` of bucket `b - 1`; if that is null it goes on to
        bucket `b`, or ends after the last one. */
    ghost predicate EnumGoes(s0: State, t: Tid, b: nat, node: ListNode?, visits: seq<Visit>, alone: bool)
      reads this, buckets
    {
      if node == null then
        if b < buckets.Length then EnumRuns(s0, t, EnumHead(b, visits), alone) else EnumEnds(s0, t, visits, alone)
      else
        && b > 0 && t in state.threads && state.threads[t].pc.EnumAt?
        && Refers(node, Some(state.threads[t].pc.node))
        && EnumRuns(s0, t, EnumAt(b - 1, state.threads[t].pc.node, visits), alone)
    }

    method EnumFirst(ghost s0: State, ghost t: Tid, b: nat, ghost visits: seq<Visit>, ghost alone: bool)
      returns (node: ListNode?)
      requires Valid() && b < buckets.Length && EnumGoes(s0, t, b, null, visits, alone)
      modifies this, buckets, objs
      ensures Valid() && Grown() && EnumGoes(s0, t, b + 1, node, visits, alone)
    {
      Pause(s0, t, EngineMachine.Enumerate, EnumHead(b, visits), alone);
      CallSteps(config, s0, state, t, EngineMachine.Enumerate, EnumHead(b, visits), alone);
      EnumLogsNothing(config, state, t);
      node := LoadBucket(t, b);
    }

    method EnumVisit(ghost s0: State, ghost t: Tid, b: nat, node: ListNode, ghost visits: seq<Visit>, ghost alone: bool)
      returns (value: string, ghost visits': seq<Visit>)
      requires Valid() && EnumGoes(s0, t, b + 1, node, visits, alone)
      modifies this, buckets, objs
      ensures Valid() && Grown() && |visits| < capacity
      ensures Pairs(visits') == Pairs(visits) + [(node.key, value)] && |visits'| == |visits| + 1
      ensures EnumLeaves(s0, t, b, node, visits', alone)
    {
      ghost var a := state.threads[t].pc.node;
      Pause(s0, t, EngineMachine.Enumerate, EnumAt(b, a, visits), alone);
      CallSteps(config, s0, state, t, EngineMachine.Enumerate, EnumAt(b, a, visits), alone);
      EnumLogsNothing(config, state, t);
      assert NodeMirrors(state.mem.nodes[a], a in state.mem.freed, a);
      visits' := visits + [Visit(a, node.key, state.mem.nodes[a].value)];
      value := LoadValue(t, node);
      VisitsBounded(config, state, t);
    }

    /** An enumeration has visited `node` of bucket `b` and will load its link. */
    ghost predicate EnumLeaves(s0: State, t: Tid, b: nat, node: ListNode, visits: seq<Visit>, alone: bool)
      reads this
    {
      && t in state.threads && state.threads[t].pc.EnumNext?
      && Refers(node, Some(state.threads[t].pc.node))
      && EnumRuns(s0, t, EnumNext(b, state.threads[t].pc.node, visits), alone)
    }

    method EnumMove(ghost s0: State, ghost t: Tid, b: nat, node: ListNode, ghost visits: seq<Visit>, ghost alone: bool)
      returns (next: ListNode?)
      requires Valid() && EnumLeaves(s0, t, b, node, visits, alone)
      modifies this, buckets, objs
      ensures Valid() && Grown() && EnumGoes(s0, t, b + 1, next, visits, alone)
    {
      ghost var a := state.threads[t].pc.node;
      Pause(s0, t, EngineMachine.Enumerate, EnumNext(b, a, visits), alone);
      CallSteps(config, s0, state, t, EngineMachine.Enumerate, EnumNext(b, a, visits), alone);
      EnumLogsNothing(config, state, t);
      next := LoadNext(t, node);
    }

    // ------------------------------------------------------------ destruction

    /** Without running calls, the nodes not yet given back are the linked ones from position `i` of
        bucket `b` on, and the links still spell the lists. */
    ghost predicate LeftFrom(b: nat, i: nat)
      reads this, objs
    {
      && Lists(config, state) && |objs| == |state.mem.nodes|
      && (forall x, y | 0 <= x < y < |objs| :: objs[x] != objs[y])
      && (forall a | 0 <= a < |objs| :: Refers(objs[a].next, state.mem.nodes[a].next))
      && (forall a | 0 <= a < |objs| ::
            objs[a].alive <==> Linked(state.hist.place, a) && !Earlier(state.hist.place[a], b, i))
    }

    /** Without running calls, every node is linked or given back. */
    lemma QuiescentLeft()
      requires Valid() && state.threads == map[]
      ensures LeftFrom(0, 0)
    {
      ReachableInv(config, state);
      forall a | 0 <= a < |objs|
        ensures Refers(objs[a].next, state.mem.nodes[a].next)
        ensures objs[a].alive <==> Linked(state.hist.place, a)
      {
        QuiescentNode(a);
      }
    }

    lemma QuiescentNode(a: Addr)
      requires Valid() && state.threads == map[] && a < |objs| && Global(config, state)
      ensures Refers(objs[a].next, state.mem.nodes[a].next)
      ensures objs[a].alive <==> Linked(state.hist.place, a)
    {
      assert NodeMirrors(state.mem.nodes[a], a in state.mem.freed, a);
    }

    /** `~DataEngine`: every node that is still allocated is given back, and given back once (that is
        what `DeleteSelf` requires). */
    method Destroy()
      requires Valid() && state.threads == map[]
      modifies objs
      ensures forall o | o in objs :: !o.alive
    {
      QuiescentLeft();
      var b := 0;
      while b < buckets.Length
        invariant b <= buckets.Length == config.size && LeftFrom(b, 0)
        invariant forall k | 0 <= k < buckets.Length :: Refers(buckets[k], state.mem.buckets[k])
      {
        DestroyList(b, buckets[b]);
        b := b + 1;
      }
    }

    method DestroyList(ghost b: nat, head: ListNode?)
      requires b < config.size && LeftFrom(b, 0) && Refers(head, state.mem.buckets[b])
      modifies objs
      ensures LeftFrom(b + 1, 0)
    {
      var node := head;
      ghost var i, list := 0, state.hist.lists[b];
      while node != null
        invariant i <= |list| && LeftFrom(b, i) && Refers(node, First(list[i..]))
        decreases |list| - i
      {
        node := DestroyNode(b, i, node);
        i := i + 1;
      }
      assert i == |list|;
      NextBucket(b);
    }

    lemma NextBucket(b: nat)
      requires b < config.size && Lists(config, state) && LeftFrom(b, |state.hist.lists[b]|)
      ensures LeftFrom(b + 1, 0)
    {
    }

    method DestroyNode(ghost b: nat, ghost i: nat, node: ListNode) returns (next: ListNode?)
      requires LeftFrom(b, i) && b < config.size && i < |state.hist.lists[b]| && Refers(node, Some(state.hist.lists[b][i]))
      modifies objs
      ensures LeftFrom(b, i + 1) && Refers(next, First(state.hist.lists[b][i + 1..]))
    {
      ghost var a := state.hist.lists[b][i];
      assert Linked(state.hist.place, a) && NextOk(state.mem.nodes, state.hist.lists, state.hist.place, a);
      next := node.next;
      node.DeleteSelf();
    }
  }
}
