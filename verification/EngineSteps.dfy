/** Every step of the engine keeps the invariant, one kind of access at a time. */
module EngineSteps {
  import opened Options
  import opened EngineMachine
  import opened EngineInvariant

  lemma ReplayPush(log: seq<Lin>, e: Lin)
    ensures Replay(log + [e]) == Update(Replay(log), e.op)
    ensures Legal(log) && e.res == Answer(Replay(log), e.op) ==> Legal(log + [e])
  {
    var log' := log + [e];
    assert log'[..|log'| - 1] == log;
    if Legal(log) && e.res == Answer(Replay(log), e.op) {
      forall i | 0 <= i < |log'| ensures log'[i].res == Answer(Replay(log'[..i]), log'[i].op) {
        assert log'[..i] == log[..i];
        if i == |log| {
          assert log[..i] == log;
        }
      }
    }
  }

  /** What the lemmas below establish for a step of `t`. */
  ghost predicate Keeps(c: Config, s: State, s': State, t: Tid) {
    && Global(c, s') && Extends(c, s, s', t)
    && (t in s'.threads ==> ThreadOk(c, s', t))
    && |s'.hist.done| <= |s.hist.done| + 1
    && (|s'.hist.done| == |s.hist.done| + 1 ==> DoneOk(c, s', |s.hist.done|))
  }

  /** The rest of the state keeps up with a step of `t`. */
  lemma Combine(c: Config, s: State, s': State, t: Tid)
    requires Inv(c, s) && Keeps(c, s, s', t)
    ensures Inv(c, s')
  {
    forall u | u in s'.threads {
      CombineThread(c, s, s', t, u);
    }
    forall j | 0 <= j < |s'.hist.done| {
      CombineDone(c, s, s', t, j);
    }
  }

  lemma CombineDone(c: Config, s: State, s': State, t: Tid, j: nat)
    requires Inv(c, s) && Keeps(c, s, s', t) && j < |s'.hist.done|
    ensures DoneOk(c, s', j)
  {
    if j < |s.hist.done| {
      OldDone(c, s, s', t, j);
    } else {
      assert j == |s.hist.done|;
    }
  }

  lemma OldDone(c: Config, s: State, s': State, t: Tid, j: nat)
    requires Inv(c, s) && Lists(c, s') && Extends(c, s, s', t) && j < |s.hist.done|
    ensures DoneOk(c, s', j)
  {
    assert DoneOk(c, s, j);
    DoneKeeps(c, s, s', t, j);
  }

  lemma CombineThread(c: Config, s: State, s': State, t: Tid, u: Tid)
    requires Inv(c, s) && Keeps(c, s, s', t) && u in s'.threads
    ensures ThreadOk(c, s', u)
  {
    if u != t {
      assert u in s.threads && ThreadOk(c, s, u);
      OthersKeep(c, s, s', t, u);
    }
  }

  /** A step that changes at most a counter and the stepping thread's own record. */
  ghost predicate QuietStep(s: State, s': State, t: Tid) {
    && t in s.threads && t in s'.threads
    && s'.threads == s.threads[t := s'.threads[t]]
    && s'.mem.buckets == s.mem.buckets && s'.mem.nodes == s.mem.nodes && s'.mem.freed == s.mem.freed
    && s'.hist == s.hist
    && s'.threads[t].call == s.threads[t].call
    && s'.threads[t].pc.Owned() == s.threads[t].pc.Owned()
  }

  lemma ListsFrame(c: Config, s: State, s': State)
    requires Lists(c, s)
    requires s'.hist.lists == s.hist.lists && s'.hist.place == s.hist.place
    requires s'.mem.buckets == s.mem.buckets && |s'.mem.nodes| == |s.mem.nodes|
    requires forall a | 0 <= a < |s.mem.nodes| ::
               s'.mem.nodes[a].key == s.mem.nodes[a].key && s'.mem.nodes[a].next == s.mem.nodes[a].next
    ensures Lists(c, s')
  {
    forall a ensures NextOk(s'.mem.nodes, s'.hist.lists, s'.hist.place, a) {
      assert NextOk(s.mem.nodes, s.hist.lists, s.hist.place, a);
    }
    forall a, b ensures KeysDiffer(s'.mem.nodes, s'.hist.place, a, b) {
      assert KeysDiffer(s.mem.nodes, s.hist.place, a, b);
    }
  }

  lemma Quiet(c: Config, s: State, s': State, t: Tid)
    requires Global(c, s) && QuietStep(s, s', t)
    ensures Global(c, s') && Extends(c, s, s', t)
  {
    ListsFrame(c, s, s');
    forall k ensures CallOk(s', k) {
      assert CallOk(s, k);
    }
  }

  /** The access that comes next touches only live memory. */
  lemma StepIsSafe(c: Config, s: State, t: Tid)
    requires Inv(c, s) && t in s.threads
    ensures CanStep(c, s, t)
  {
    assert ThreadOk(c, s, t);
  }

  // ---------------------------------------------------------------- get

  /** The cursor moves from the bucket's head, or from `node`, to the next node of the list. */
  lemma BehindNext(c: Config, s: State, key: string, node: Addr, next: Addr)
    requires Lists(c, s) && Behind(c, s, key, node)
    requires s.mem.nodes[node].key != key && s.mem.nodes[node].next == Some(next)
    ensures Behind(c, s, key, next) && s.hist.place[next].index == s.hist.place[node].index + 1
  {
    assert NextOk(s.mem.nodes, s.hist.lists, s.hist.place, node);
    var p := s.hist.place[node];
    assert s.hist.lists[p.bucket][p.index + 1] == next;
  }

  lemma BehindHead(c: Config, s: State, key: string, node: Addr)
    requires Lists(c, s) && s.mem.buckets[BucketOf(c, key)] == Some(node)
    ensures Behind(c, s, key, node) && s.hist.place[node].index == 0
  {
    assert s.hist.lists[BucketOf(c, key)][0] == node;
  }

  lemma GetWalks(c: Config, s: State, t: Tid)
    requires Global(c, s) && CanStep(c, s, t) && ThreadOk(c, s, t)
    requires s.threads[t].pc.GetHead? || s.threads[t].pc.GetAt?
    requires Access(c, s.mem, s.threads[t].pc).effect == Silent
    ensures Keeps(c, s, StepOf(c, s, t), t)
  {
    var th, s' := s.threads[t], StepOf(c, s, t);
    assert ThreadOk(c, s', t) by {
      match th.pc
      case GetHead(key) => BehindHead(c, s, key, s.mem.buckets[BucketOf(c, key)].value);
      case GetAt(key, node) =>
        if s.mem.nodes[node].key != key {
          BehindNext(c, s, key, node, s.mem.nodes[node].next.value);
        }
    }
    Quiet(c, s, s', t);
  }

  lemma ReturnsCalls(s1: State, t: Tid, res: Result)
    requires Calls(s1) && t in s1.threads
    ensures Calls(Returned(s1, t, res))
  {
    var s' := Returned(s1, t, res);
    forall k ensures CallOk(s', k) {
      assert CallOk(s1, k);
    }
  }

  lemma ReturnsOwnership(s1: State, t: Tid, res: Result)
    requires Ownership(s1) && t in s1.threads && s1.threads[t].call < |s1.hist.calls|
    requires forall a | 0 <= a < |s1.hist.place| :: s1.hist.place[a] != OwnedBy(t)
    ensures Ownership(Returned(s1, t, res))
  {
  }

  lemma ReturnsExtends(c: Config, s: State, s1: State, t: Tid, res: Result)
    requires Extends(c, s, s1, t) && t in s1.threads && s1.threads[t].call < |s1.hist.calls|
    requires t in s.threads && s.threads[t].call == s1.threads[t].call
    ensures Extends(c, s, Returned(s1, t, res), t)
  {
  }

  /** A call that owns no node returns. */
  lemma Returns(c: Config, s: State, s1: State, t: Tid, res: Result)
    requires Global(c, s1) && Extends(c, s, s1, t) && t in s1.threads
    requires t in s.threads && s.threads[t].call == s1.threads[t].call
    requires s1.hist.done == s.hist.done
    requires forall a | 0 <= a < |s1.hist.place| :: s1.hist.place[a] != OwnedBy(t)
    requires DoneOk(c, Returned(s1, t, res), |s.hist.done|)
    ensures Keeps(c, s, Returned(s1, t, res), t)
  {
    var s' := Returned(s1, t, res);
    ListsFrame(c, s1, s');
    ReturnsCalls(s1, t, res);
    ReturnsOwnership(s1, t, res);
    ReturnsExtends(c, s, s1, t, res);
  }

  /** Only a call that holds a node can be the owner of one. */
  lemma OwnsNothing(s: State, t: Tid)
    requires Ownership(s) && t in s.threads && s.threads[t].pc.Owned().None?
    ensures forall a | 0 <= a < |s.hist.place| :: s.hist.place[a] != OwnedBy(t)
  {
  }

  /** At a null link, the whole bucket has been passed: the map does not have the key. */
  lemma AbsentAtEnd(c: Config, s: State, key: string, node: Option<Addr>)
    requires Lists(c, s) && Represents(s.mem.nodes, s.hist.place, Replay(s.hist.log))
    requires match node
             case None => s.mem.buckets[BucketOf(c, key)].None?
             case Some(a) => Behind(c, s, key, a) && s.mem.nodes[a].key != key && s.mem.nodes[a].next.None?
    ensures key !in Replay(s.hist.log)
    ensures |s.hist.lists[BucketOf(c, key)]| == if node.None? then 0 else s.hist.place[node.value].index + 1
  {
    if node.Some? {
      assert NextOk(s.mem.nodes, s.hist.lists, s.hist.place, node.value);
    }
    forall a | Linked(s.hist.place, a) ensures s.mem.nodes[a].key != key {
    }
    assert !HasNode(s.mem.nodes, s.hist.place, key);
  }

  /** A `get` takes effect: the log grows by one entry, and the memory does not change. */
  ghost predicate LogsGet(s: State, s': State, t: Tid, res: Result) {
    && t in s.threads && t in s'.threads
    && s.threads[t].op.Get?
    && res == Answer(Replay(s.hist.log), s.threads[t].op)
    && s'.mem.buckets == s.mem.buckets && s'.mem.nodes == s.mem.nodes && s'.mem.freed == s.mem.freed
    && s.threads[t].call < |s.hist.calls|
    && s'.hist == Logged(s.hist, s.threads[t], res)
    && s'.threads == s.threads[t := s'.threads[t]] && s'.threads[t].call == s.threads[t].call
    && s'.threads[t].pc.Owned() == s.threads[t].pc.Owned()
  }

  lemma LogsGetGlobal(c: Config, s: State, s': State, t: Tid, res: Result)
    requires Global(c, s) && LogsGet(s, s', t, res) && Pending(s, s.threads[t].call)
    ensures Global(c, s')
  {
    ReplayPush(s.hist.log, Lin(s.threads[t].call, s.threads[t].op, res));
    ListsFrame(c, s, s');
    LogsGetCalls(s, s', t, res);
  }

  lemma LogsGetCalls(s: State, s': State, t: Tid, res: Result)
    requires Calls(s) && LogsGet(s, s', t, res) && Pending(s, s.threads[t].call)
    ensures Calls(s')
  {
    forall k ensures CallOk(s', k) {
      assert CallOk(s, k);
    }
  }

  lemma LogsGetExtends(c: Config, s: State, s': State, t: Tid, res: Result)
    requires Sized(c, s) && LogsGet(s, s', t, res) && Pending(s, s.threads[t].call)
    ensures Extends(c, s, s', t)
  {
  }

  lemma MissShape(c: Config, s: State, t: Tid)
    requires CanStep(c, s, t) && (s.threads[t].pc.GetHead? || s.threads[t].pc.GetAt?)
    requires s.threads[t].op == Get(s.threads[t].pc.key) && s.threads[t].pc.key !in Replay(s.hist.log)
    requires Access(c, s.mem, s.threads[t].pc).effect == Misses
    ensures var th, s' := s.threads[t], StepOf(c, s, t);
            && LogsGet(s, s', t, Missing)
            && s'.threads[t] == th.(pc := GetMiss(th.pc.key), steps := th.steps + 1)
  {
  }

  lemma GetMisses(c: Config, s: State, t: Tid)
    requires Global(c, s) && CanStep(c, s, t) && ThreadOk(c, s, t)
    requires s.threads[t].pc.GetHead? || s.threads[t].pc.GetAt?
    requires Access(c, s.mem, s.threads[t].pc).effect == Misses
    ensures Keeps(c, s, StepOf(c, s, t), t)
  {
    var th := s.threads[t];
    AbsentAtEnd(c, s, th.pc.key, th.pc.Target());
    MissShape(c, s, t);
    MissKeeps(c, s, StepOf(c, s, t), t);
  }

  lemma MissKeeps(c: Config, s: State, s': State, t: Tid)
    requires Global(c, s) && t in s.threads && ThreadOk(c, s, t)
    requires s.threads[t].pc.GetHead? || s.threads[t].pc.GetAt?
    requires LogsGet(s, s', t, Missing)
    requires var th := s.threads[t]; s'.threads[t] == th.(pc := GetMiss(th.pc.key), steps := th.steps + 1)
    requires s.threads[t].steps <= |s.hist.lists[BucketOf(c, s.threads[t].pc.key)]|
    ensures Keeps(c, s, s', t)
  {
    assert s'.hist.done == s.hist.done && s'.hist.lists == s.hist.lists;
    assert ThreadOk(c, s', t);
    LogsGetGlobal(c, s, s', t, Missing);
    LogsGetExtends(c, s, s', t, Missing);
  }

  lemma GetReturnsMissing(c: Config, s: State, t: Tid)
    requires Global(c, s) && CanStep(c, s, t) && ThreadOk(c, s, t) && s.threads[t].pc.GetMiss?
    ensures Keeps(c, s, StepOf(c, s, t), t)
  {
    var s1 := Accessed(c, s, t, s.threads[t].pc);
    OwnsNothing(s, t);
    Quiet(c, s, s1, t);
    MissingDone(c, s, s1, t);
    Returns(c, s, s1, t, Missing);
  }

  lemma MissingDone(c: Config, s: State, s1: State, t: Tid)
    requires Global(c, s) && CanStep(c, s, t) && ThreadOk(c, s, t) && s.threads[t].pc.GetMiss?
    requires s1 == Accessed(c, s, t, s.threads[t].pc)
    ensures Sized(c, Returned(s1, t, Missing)) && DoneOk(c, Returned(s1, t, Missing), |s.hist.done|)
  {
  }

  lemma HitShape(c: Config, s: State, t: Tid, s1: State)
    requires CanStep(c, s, t) && s.threads[t].pc.GetValue? && s1 == Accessed(c, s, t, s.threads[t].pc)
    requires var th := s.threads[t];
             && th.op == Get(th.pc.key) && th.pc.key in Replay(s.hist.log)
             && Replay(s.hist.log)[th.pc.key] == s.mem.nodes[th.pc.node].value
    ensures var th := s.threads[t];
            && LogsGet(s, s1, t, Found(s.mem.nodes[th.pc.node].value))
            && s1.threads[t] == th.(steps := th.steps + 1)
            && StepOf(c, s, t) == Returned(s1, t, Found(s.mem.nodes[th.pc.node].value))
  {
  }

  lemma HitKeeps(c: Config, s: State, s1: State, t: Tid, res: Result)
    requires Global(c, s) && t in s.threads && ThreadOk(c, s, t) && s.threads[t].pc.GetValue? && res.Found?
    requires LogsGet(s, s1, t, res) && s1.threads[t] == s.threads[t].(steps := s.threads[t].steps + 1)
    ensures Keeps(c, s, Returned(s1, t, res), t)
  {
    OwnsNothing(s, t);
    LogsGetGlobal(c, s, s1, t, res);
    LogsGetExtends(c, s, s1, t, res);
    HitDone(c, s, s1, t, res);
    Returns(c, s, s1, t, res);
  }

  lemma HitDone(c: Config, s: State, s1: State, t: Tid, res: Result)
    requires Lists(c, s) && t in s.threads && ThreadOk(c, s, t) && s.threads[t].pc.GetValue? && res.Found?
    requires LogsGet(s, s1, t, res) && s1.threads[t] == s.threads[t].(steps := s.threads[t].steps + 1)
    requires Sized(c, s1)
    ensures DoneOk(c, Returned(s1, t, res), |s.hist.done|)
  {
  }

  lemma GetReturnsFound(c: Config, s: State, t: Tid)
    requires Global(c, s) && CanStep(c, s, t) && ThreadOk(c, s, t) && s.threads[t].pc.GetValue?
    ensures Keeps(c, s, StepOf(c, s, t), t)
  {
    var s1 := Accessed(c, s, t, s.threads[t].pc);
    HitShape(c, s, t, s1);
    HitKeeps(c, s, s1, t, Found(s.mem.nodes[s.threads[t].pc.node].value));
  }

  // ---------------------------------------------------------------- set

  lemma SetCreates(c: Config, s: State, t: Tid)
    requires Global(c, s) && CanStep(c, s, t) && ThreadOk(c, s, t) && s.threads[t].pc.SetNew?
    ensures Keeps(c, s, StepOf(c, s, t), t)
  {
    CreateShape(c, s, t);
    CreateKeeps(c, s, StepOf(c, s, t), t);
  }

  ghost predicate Create(s: State, s': State, t: Tid) {
    && t in s.threads && s.threads[t].pc.SetNew?
    && var th := s.threads[t];
       var pc := SetHead(th.pc.key, th.pc.value, |s.mem.nodes|);
       && s'.mem == s.mem.(nodes := s.mem.nodes + [Node(th.pc.key, th.pc.value, None)])
       && s'.hist == s.hist.(place := s.hist.place + [OwnedBy(t)])
       && s'.threads == s.threads[t := th.(pc := pc, steps := th.steps + 1)]
  }

  lemma CreateKeeps(c: Config, s: State, s': State, t: Tid)
    requires Global(c, s) && t in s.threads && ThreadOk(c, s, t) && Create(s, s', t)
    ensures Keeps(c, s, s', t)
  {
    OwnsNothing(s, t);
    CreateLists(c, s, s');
    CreateRepresents(s, s');
    CreateOwnership(s, s', t);
    CreateCalls(s, s', t);
    CreateExtends(c, s, s', t);
    CreateThread(c, s, s', t);
  }

  lemma CreateThread(c: Config, s: State, s': State, t: Tid)
    requires Sized(c, s) && Sized(c, s') && t in s.threads && ThreadOk(c, s, t) && Create(s, s', t)
    ensures ThreadOk(c, s', t)
  {
  }

  lemma CreateCalls(s: State, s': State, t: Tid)
    requires Calls(s) && Create(s, s', t)
    ensures Calls(s')
  {
    forall k ensures CallOk(s', k) {
      assert CallOk(s, k);
    }
  }

  lemma CreateExtends(c: Config, s: State, s': State, t: Tid)
    requires Sized(c, s) && Create(s, s', t)
    ensures Extends(c, s, s', t)
  {
  }

  lemma CreateOwnership(s: State, s': State, t: Tid)
    requires Ownership(s) && t in s.threads && t in s'.threads
    requires forall a | 0 <= a < |s.hist.place| :: s.hist.place[a] != OwnedBy(t)
    requires s'.threads == s.threads[t := s'.threads[t]] && s'.threads[t].pc.Owned() == Some(|s.mem.nodes|)
    requires s'.hist.place == s.hist.place + [OwnedBy(t)] && s'.mem.freed == s.mem.freed
    requires |s'.mem.nodes| == |s.mem.nodes| + 1 && s'.mem.nodes[..|s.mem.nodes|] == s.mem.nodes
    requires s'.mem.nodes[|s.mem.nodes|].next == None
    ensures Ownership(s')
  {
    forall a | 0 <= a < |s'.hist.place| && s'.hist.place[a].OwnedBy? && a < |s.mem.nodes|
      ensures s'.mem.nodes[a].next == None
    {
      assert s'.mem.nodes[..|s.mem.nodes|][a] == s.mem.nodes[a];
    }
  }

  lemma CreateShape(c: Config, s: State, t: Tid)
    requires CanStep(c, s, t) && s.threads[t].pc.SetNew?
    ensures Create(s, StepOf(c, s, t), t)
  {
  }

  lemma CreateLists(c: Config, s: State, s': State)
    requires Lists(c, s) && s'.mem.buckets == s.mem.buckets && s'.hist.lists == s.hist.lists
    requires |s'.mem.nodes| == |s'.hist.place| == |s.mem.nodes| + 1
    requires s'.mem.nodes[..|s.mem.nodes|] == s.mem.nodes
    requires s'.hist.place[..|s.hist.place|] == s.hist.place && s'.hist.place[|s.hist.place|].OwnedBy?
    ensures Lists(c, s')
  {
    forall a | Linked(s'.hist.place, a)
      ensures Linked(s.hist.place, a) && s'.mem.nodes[a] == s.mem.nodes[a] && s'.hist.place[a] == s.hist.place[a]
    {
      assert s'.hist.place[..|s.hist.place|][a] == s.hist.place[a];
      assert s'.mem.nodes[..|s.mem.nodes|][a] == s.mem.nodes[a];
    }
    forall a ensures NextOk(s'.mem.nodes, s'.hist.lists, s'.hist.place, a) {
      assert NextOk(s.mem.nodes, s.hist.lists, s.hist.place, a);
    }
    forall a, b ensures KeysDiffer(s'.mem.nodes, s'.hist.place, a, b) {
      assert KeysDiffer(s.mem.nodes, s.hist.place, a, b);
    }
    forall b, i | 0 <= b < c.size && 0 <= i < |s.hist.lists[b]|
      ensures s'.hist.place[s.hist.lists[b][i]] == InBucket(b, i)
    {
      assert s'.hist.place[..|s.hist.place|][s.hist.lists[b][i]] == s.hist.place[s.hist.lists[b][i]];
    }
  }

  lemma CreateRepresents(s: State, s': State)
    requires Represents(s.mem.nodes, s.hist.place, Replay(s.hist.log)) && s'.hist.log == s.hist.log
    requires |s'.mem.nodes| == |s'.hist.place| == |s.mem.nodes| + 1
    requires s'.mem.nodes[..|s.mem.nodes|] == s.mem.nodes
    requires s'.hist.place[..|s.hist.place|] == s.hist.place && s'.hist.place[|s.hist.place|].OwnedBy?
    ensures Represents(s'.mem.nodes, s'.hist.place, Replay(s'.hist.log))
  {
    forall a | Linked(s'.hist.place, a) ensures Linked(s.hist.place, a) && s'.mem.nodes[a] == s.mem.nodes[a] {
      assert s'.hist.place[..|s.hist.place|][a] == s.hist.place[a];
      assert s'.mem.nodes[..|s.mem.nodes|][a] == s.mem.nodes[a];
    }
    forall k | k in Replay(s'.hist.log) ensures HasNode(s'.mem.nodes, s'.hist.place, k) {
      assert HasNode(s.mem.nodes, s.hist.place, k);
      var a: Addr :| Linked(s.hist.place, a) && s.mem.nodes[a].key == k;
      assert s'.hist.place[..|s.hist.place|][a] == s.hist.place[a];
      assert s'.mem.nodes[..|s.mem.nodes|][a] == s.mem.nodes[a];
      assert Linked(s'.hist.place, a);
    }
  }

  /** A failed compare-exchange moves the cursor one node forward and costs one attempt. */
  lemma SetWalks(c: Config, s: State, t: Tid)
    requires Global(c, s) && CanStep(c, s, t) && ThreadOk(c, s, t)
    requires s.threads[t].pc.SetHead? || s.threads[t].pc.SetAt?
    requires Access(c, s.mem, s.threads[t].pc).effect == Silent
    ensures Keeps(c, s, StepOf(c, s, t), t)
  {
    var th, s' := s.threads[t], StepOf(c, s, t);
    assert ThreadOk(c, s', t) by {
      match th.pc
      case SetHead(key, _, _) => BehindHead(c, s, key, s.mem.buckets[BucketOf(c, key)].value);
      case SetAt(key, _, _, node) => BehindNext(c, s, key, node, s.mem.nodes[node].next.value);
    }
    Quiet(c, s, s', t);
  }

  /** `own` goes to the end of bucket `b`: the null link at the end becomes a link to it. */
  ghost predicate Link(c: Config, s: State, s1: State, t: Tid, key: string, value: string, own: Addr) {
    var b := BucketOf(c, key);
    && Sized(c, s)
    && t in s.threads && s.threads[t].op == Set(key, value) && s.threads[t].call < |s.hist.calls|
    && OwnNode(s, t, own, key, value)
    && |s1.mem.buckets| == |s.mem.buckets| && |s1.mem.nodes| == |s.mem.nodes| && s1.mem.freed == s.mem.freed
    && s1.hist == Logged(s.hist.(lists := s.hist.lists[b := s.hist.lists[b] + [own]],
                                 place := s.hist.place[own := InBucket(b, |s.hist.lists[b]|)]),
                         s.threads[t], Stored)
    && t in s1.threads && s1.threads == s.threads[t := s1.threads[t]]
    && s1.threads[t].call == s.threads[t].call
    && if s.hist.lists[b] == [] then
         && s1.mem.buckets == s.mem.buckets[b := Some(own)]
         && s1.mem.nodes == s.mem.nodes
       else
         var last := s.hist.lists[b][|s.hist.lists[b]| - 1];
         && last < |s.mem.nodes| && last != own
         && s1.mem.buckets == s.mem.buckets
         && s1.mem.nodes == s.mem.nodes[last := s.mem.nodes[last].(next := Some(own))]
  }

  lemma LinkPositions(c: Config, s: State, s1: State, t: Tid, key: string, value: string, own: Addr)
    requires Sized(c, s) && Positions(c, s) && Link(c, s, s1, t, key, value, own)
    ensures Sized(c, s1) && Positions(c, s1)
  {
    var b := BucketOf(c, key);
    forall b', i | 0 <= b' < c.size && 0 <= i < |s1.hist.lists[b']|
      ensures s1.hist.lists[b'][i] < |s1.hist.place| && s1.hist.place[s1.hist.lists[b'][i]] == InBucket(b', i)
    {
      if b' != b || i < |s.hist.lists[b]| {
        assert s1.hist.lists[b'][i] == s.hist.lists[b'][i];
      }
    }
    forall a | Linked(s1.hist.place, a)
      ensures var p := s1.hist.place[a];
              && p.bucket < c.size && p.index < |s1.hist.lists[p.bucket]| && s1.hist.lists[p.bucket][p.index] == a
              && BucketOf(c, s1.mem.nodes[a].key) == p.bucket
    {
      if a != own {
        assert Linked(s.hist.place, a);
      }
    }
  }

  lemma LinkNexts(c: Config, s: State, s1: State, t: Tid, key: string, value: string, own: Addr, a: int)
    requires Sized(c, s) && Positions(c, s) && NextOk(s.mem.nodes, s.hist.lists, s.hist.place, a) && Link(c, s, s1, t, key, value, own) && Sized(c, s1)
    ensures NextOk(s1.mem.nodes, s1.hist.lists, s1.hist.place, a)
  {
    if Linked(s1.hist.place, a) && a != own {
      assert Linked(s.hist.place, a);
      var p := s.hist.place[a];
      if p.bucket == BucketOf(c, key) && p.index < |s.hist.lists[p.bucket]| - 1 {
        assert s.hist.lists[p.bucket][|s.hist.lists[p.bucket]| - 1] != a;
      }
    }
  }

  lemma LinkLists(c: Config, s: State, s1: State, t: Tid, key: string, value: string, own: Addr)
    requires Lists(c, s) && Represents(s.mem.nodes, s.hist.place, Replay(s.hist.log)) && Link(c, s, s1, t, key, value, own) && key !in Replay(s.hist.log)
    ensures Lists(c, s1)
  {
    LinkPositions(c, s, s1, t, key, value, own);
    forall a ensures NextOk(s1.mem.nodes, s1.hist.lists, s1.hist.place, a) {
      LinkNexts(c, s, s1, t, key, value, own, a);
    }
    forall a, a' ensures KeysDiffer(s1.mem.nodes, s1.hist.place, a, a') {
      assert KeysDiffer(s.mem.nodes, s.hist.place, a, a');
    }
  }

  lemma LinkKeepsNode(c: Config, s: State, s1: State, t: Tid, key: string, value: string, own: Addr, k: string)
    requires Link(c, s, s1, t, key, value, own) && HasNode(s.mem.nodes, s.hist.place, k)
    ensures HasNode(s1.mem.nodes, s1.hist.place, k)
  {
    var a: Addr :| Linked(s.hist.place, a) && s.mem.nodes[a].key == k;
    assert a < |s.mem.nodes| && s1.mem.nodes[a].key == k;
    assert Linked(s1.hist.place, a);
  }

  lemma LinkRepresents(c: Config, s: State, s1: State, t: Tid, key: string, value: string, own: Addr)
    requires Lists(c, s) && Represents(s.mem.nodes, s.hist.place, Replay(s.hist.log)) && Link(c, s, s1, t, key, value, own) && key !in Replay(s.hist.log)
    requires Legal(s.hist.log)
    ensures Represents(s1.mem.nodes, s1.hist.place, Replay(s1.hist.log)) && Legal(s1.hist.log)
  {
    ReplayPush(s.hist.log, Lin(s.threads[t].call, s.threads[t].op, Stored));
    forall k | k in Replay(s1.hist.log) ensures HasNode(s1.mem.nodes, s1.hist.place, k) {
      if k == key {
        assert Linked(s1.hist.place, own);
      } else {
        LinkKeepsNode(c, s, s1, t, key, value, own, k);
      }
    }
  }

  lemma LinkOwnership(c: Config, s: State, s1: State, t: Tid, key: string, value: string, own: Addr)
    requires Lists(c, s) && Ownership(s) && Link(c, s, s1, t, key, value, own)
    requires s.threads[t].pc.Owned() == Some(own)
    ensures Ownership(s1)
    ensures forall a | 0 <= a < |s1.hist.place| :: s1.hist.place[a] != OwnedBy(t)
  {
  }

  lemma LinkExtends(c: Config, s: State, s1: State, t: Tid, key: string, value: string, own: Addr)
    requires Lists(c, s) && Link(c, s, s1, t, key, value, own) && key !in Replay(s.hist.log)
    requires Pending(s, s.threads[t].call)
    ensures Extends(c, s, s1, t)
  {
  }

  lemma LinkCalls(c: Config, s: State, s1: State, t: Tid, key: string, value: string, own: Addr)
    requires Calls(s) && Link(c, s, s1, t, key, value, own) && Pending(s, s.threads[t].call)
    ensures Calls(s1)
  {
    forall k ensures CallOk(s1, k) {
      assert CallOk(s, k);
    }
  }

  lemma LinkKeeps(c: Config, s: State, s1: State, t: Tid, key: string, value: string, own: Addr)
    requires Global(c, s) && t in s.threads && ThreadOk(c, s, t) && Link(c, s, s1, t, key, value, own)
    requires key !in Replay(s.hist.log) && Pending(s, s.threads[t].call)
    requires s.threads[t].pc.Owned() == Some(own)
    requires var th := s.threads[t]; s1.threads[t] == th.(steps := th.steps + 1, cas := th.cas + 1)
    requires s.threads[t].cas == |s.hist.lists[BucketOf(c, key)]|
    requires s.threads[t].steps == |s.hist.lists[BucketOf(c, key)]| + 1
    ensures Keeps(c, s, Returned(s1, t, Stored), t)
  {
    LinkLists(c, s, s1, t, key, value, own);
    LinkRepresents(c, s, s1, t, key, value, own);
    LinkOwnership(c, s, s1, t, key, value, own);
    LinkExtends(c, s, s1, t, key, value, own);
    LinkCalls(c, s, s1, t, key, value, own);
    LinkDone(c, s, s1, t, key, value, own);
    Returns(c, s, s1, t, Stored);
  }

  lemma LinkDone(c: Config, s: State, s1: State, t: Tid, key: string, value: string, own: Addr)
    requires Sized(c, s) && Sized(c, s1) && t in s.threads && ThreadOk(c, s, t) && Link(c, s, s1, t, key, value, own)
    requires var th := s.threads[t]; s1.threads[t] == th.(steps := th.steps + 1, cas := th.cas + 1)
    requires s.threads[t].cas == |s.hist.lists[BucketOf(c, key)]|
    requires s.threads[t].steps == |s.hist.lists[BucketOf(c, key)]| + 1
    ensures DoneOk(c, Returned(s1, t, Stored), |s.hist.done|)
  {
  }

  lemma LinkShape(c: Config, s: State, t: Tid, s1: State)
    requires Lists(c, s) && CanStep(c, s, t) && ThreadOk(c, s, t)
    requires s.threads[t].pc.SetHead? || s.threads[t].pc.SetAt?
    requires Access(c, s.mem, s.threads[t].pc).effect.Links?
    requires s1 == Accessed(c, s, t, s.threads[t].pc)
    ensures var th := s.threads[t];
            && Link(c, s, s1, t, th.pc.key, th.pc.value, th.pc.own)
            && s1.threads[t] == th.(steps := th.steps + 1, cas := th.cas + 1)
            && th.cas == |s.hist.lists[BucketOf(c, th.pc.key)]|
            && th.steps == th.cas + 1
            && StepOf(c, s, t) == Returned(s1, t, Stored)
  {
    if s.threads[t].pc.SetAt? {
      assert NextOk(s.mem.nodes, s.hist.lists, s.hist.place, s.threads[t].pc.node);
    }
  }

  lemma SetLinks(c: Config, s: State, t: Tid)
    requires Global(c, s) && CanStep(c, s, t) && ThreadOk(c, s, t)
    requires s.threads[t].pc.SetHead? || s.threads[t].pc.SetAt?
    requires Access(c, s.mem, s.threads[t].pc).effect.Links?
    ensures Keeps(c, s, StepOf(c, s, t), t)
  {
    var th, s1 := s.threads[t], Accessed(c, s, t, s.threads[t].pc);
    AbsentAtEnd(c, s, th.pc.key, th.pc.Target());
    LinkShape(c, s, t, s1);
    LinkKeeps(c, s, s1, t, th.pc.key, th.pc.value, th.pc.own);
  }

  /** The value of the node that has the key is replaced; the new node stays with its call. */
  ghost predicate Overwrite(s: State, s': State, t: Tid) {
    && t in s.threads && s.threads[t].pc.SetAt? && |s.hist.place| == |s.mem.nodes|
    && var th := s.threads[t];
       && th.op == Set(th.pc.key, th.pc.value) && Pending(s, th.call)
       && Linked(s.hist.place, th.pc.node) && s.mem.nodes[th.pc.node].key == th.pc.key
       && s'.mem == s.mem.(nodes := s.mem.nodes[th.pc.node := s.mem.nodes[th.pc.node].(value := th.pc.value)])
       && s'.hist == Logged(s.hist, th, Stored)
       && s'.threads == s.threads[t := th.(pc := SetDelete(th.pc.own), steps := th.steps + 1)]
  }

  lemma OverwriteShape(c: Config, s: State, t: Tid)
    requires Lists(c, s) && CanStep(c, s, t) && ThreadOk(c, s, t) && s.threads[t].pc.SetAt?
    requires s.mem.nodes[s.threads[t].pc.node].key == s.threads[t].pc.key
    ensures Overwrite(s, StepOf(c, s, t), t)
  {
  }

  lemma OverwriteRepresents(c: Config, s: State, s': State, t: Tid)
    requires Lists(c, s) && Represents(s.mem.nodes, s.hist.place, Replay(s.hist.log)) && Legal(s.hist.log) && Overwrite(s, s', t)
    ensures Represents(s'.mem.nodes, s'.hist.place, Replay(s'.hist.log)) && Legal(s'.hist.log)
  {
    var th := s.threads[t];
    ReplayPush(s.hist.log, Lin(th.call, th.op, Stored));
    forall a | Linked(s'.hist.place, a)
      ensures s'.mem.nodes[a].key in Replay(s'.hist.log)
              && Replay(s'.hist.log)[s'.mem.nodes[a].key] == s'.mem.nodes[a].value
    {
      assert KeysDiffer(s.mem.nodes, s.hist.place, a, th.pc.node);
    }
    forall k | k in Replay(s'.hist.log) ensures HasNode(s'.mem.nodes, s'.hist.place, k) {
      assert HasNode(s.mem.nodes, s.hist.place, k);
      var a: Addr :| Linked(s.hist.place, a) && s.mem.nodes[a].key == k;
      assert Linked(s'.hist.place, a) && s'.mem.nodes[a].key == k;
    }
  }

  lemma OverwriteCalls(s: State, s': State, t: Tid)
    requires Calls(s) && Overwrite(s, s', t)
    ensures Calls(s')
  {
    forall k ensures CallOk(s', k) {
      assert CallOk(s, k);
    }
  }

  lemma OverwriteExtends(c: Config, s: State, s': State, t: Tid)
    requires Sized(c, s) && Overwrite(s, s', t)
    ensures Extends(c, s, s', t)
  {
  }

  lemma OverwriteThread(c: Config, s: State, s': State, t: Tid)
    requires Lists(c, s) && Sized(c, s') && t in s.threads && ThreadOk(c, s, t) && Overwrite(s, s', t)
    ensures ThreadOk(c, s', t)
  {
  }

  lemma OverwriteKeeps(c: Config, s: State, s': State, t: Tid)
    requires Global(c, s) && t in s.threads && ThreadOk(c, s, t) && Overwrite(s, s', t)
    ensures Keeps(c, s, s', t)
  {
    OverwriteGlobal(c, s, s', t);
    OverwriteExtends(c, s, s', t);
    OverwriteThread(c, s, s', t);
  }

  lemma OverwriteGlobal(c: Config, s: State, s': State, t: Tid)
    requires Global(c, s) && Overwrite(s, s', t)
    ensures Global(c, s')
  {
    ListsFrame(c, s, s');
    OverwriteRepresents(c, s, s', t);
    OverwriteOwnership(s, s', t);
    OverwriteCalls(s, s', t);
  }

  lemma OverwriteOwnership(s: State, s': State, t: Tid)
    requires Ownership(s) && Overwrite(s, s', t)
    ensures Ownership(s')
  {
  }

  lemma SetOverwrites(c: Config, s: State, t: Tid)
    requires Global(c, s) && CanStep(c, s, t) && ThreadOk(c, s, t) && s.threads[t].pc.SetAt?
    requires s.mem.nodes[s.threads[t].pc.node].key == s.threads[t].pc.key
    ensures Keeps(c, s, StepOf(c, s, t), t)
  {
    OverwriteShape(c, s, t);
    OverwriteKeeps(c, s, StepOf(c, s, t), t);
  }

  /** The node that was never linked is given back. */
  ghost predicate Delete(s: State, s1: State, t: Tid) {
    && t in s.threads && s.threads[t].pc.SetDelete? && s.threads[t].pc.own < |s.hist.place|
    && var th := s.threads[t];
       && s1.mem == s.mem.(freed := s.mem.freed + {th.pc.own})
       && s1.hist == s.hist.(place := s.hist.place[th.pc.own := Freed])
       && s1.threads == s.threads[t := th.(steps := th.steps + 1)]
  }

  lemma DeleteLists(c: Config, s: State, s1: State, t: Tid)
    requires Lists(c, s) && Delete(s, s1, t) && s.hist.place[s.threads[t].pc.own] == OwnedBy(t)
    ensures Lists(c, s1)
  {
    forall a ensures Linked(s1.hist.place, a) <==> Linked(s.hist.place, a) {
    }
    forall a ensures NextOk(s1.mem.nodes, s1.hist.lists, s1.hist.place, a) {
      assert NextOk(s.mem.nodes, s.hist.lists, s.hist.place, a);
    }
    forall a, b ensures KeysDiffer(s1.mem.nodes, s1.hist.place, a, b) {
      assert KeysDiffer(s.mem.nodes, s.hist.place, a, b);
    }
  }

  lemma DeleteRepresents(s: State, s1: State, t: Tid)
    requires Represents(s.mem.nodes, s.hist.place, Replay(s.hist.log)) && Delete(s, s1, t) && s.hist.place[s.threads[t].pc.own] == OwnedBy(t)
    ensures Represents(s1.mem.nodes, s1.hist.place, Replay(s1.hist.log))
  {
    forall k | k in Replay(s1.hist.log) ensures HasNode(s1.mem.nodes, s1.hist.place, k) {
      assert HasNode(s.mem.nodes, s.hist.place, k);
      var a: Addr :| Linked(s.hist.place, a) && s.mem.nodes[a].key == k;
      assert Linked(s1.hist.place, a);
    }
  }

  lemma DeleteOwnership(s: State, s1: State, t: Tid)
    requires Ownership(s) && Delete(s, s1, t) && s.hist.place[s.threads[t].pc.own] == OwnedBy(t)
    ensures Ownership(s1)
    ensures forall a | 0 <= a < |s1.hist.place| :: s1.hist.place[a] != OwnedBy(t)
  {
  }

  lemma DeleteExtends(c: Config, s: State, s1: State, t: Tid)
    requires Sized(c, s) && Delete(s, s1, t) && s.hist.place[s.threads[t].pc.own] == OwnedBy(t)
    ensures Extends(c, s, s1, t)
  {
  }

  lemma DeleteDone(c: Config, s: State, s1: State, t: Tid)
    requires Sized(c, s) && Sized(c, s1) && t in s.threads && ThreadOk(c, s, t) && Delete(s, s1, t)
    requires s.threads[t].call < |s1.hist.calls|
    ensures DoneOk(c, Returned(s1, t, Stored), |s.hist.done|)
  {
  }

  lemma DeleteGlobal(c: Config, s: State, s1: State, t: Tid)
    requires Global(c, s) && Delete(s, s1, t) && s.hist.place[s.threads[t].pc.own] == OwnedBy(t)
    ensures Global(c, s1)
  {
    DeleteLists(c, s, s1, t);
    DeleteRepresents(s, s1, t);
    DeleteOwnership(s, s1, t);
    DeleteCalls(s, s1, t);
  }

  lemma DeleteCalls(s: State, s1: State, t: Tid)
    requires Calls(s) && Delete(s, s1, t)
    ensures Calls(s1)
  {
    forall k ensures CallOk(s1, k) {
      assert CallOk(s, k);
    }
  }

  lemma DeleteKeeps(c: Config, s: State, s1: State, t: Tid)
    requires Global(c, s) && t in s.threads && ThreadOk(c, s, t) && Delete(s, s1, t)
    ensures Keeps(c, s, Returned(s1, t, Stored), t)
  {
    DeleteGlobal(c, s, s1, t);
    DeleteOwnership(s, s1, t);
    DeleteExtends(c, s, s1, t);
    DeleteDone(c, s, s1, t);
    Returns(c, s, s1, t, Stored);
  }

  lemma DeleteShape(c: Config, s: State, t: Tid, s1: State)
    requires CanStep(c, s, t) && s.threads[t].pc.SetDelete? && s1 == Accessed(c, s, t, s.threads[t].pc)
    ensures Delete(s, s1, t) && StepOf(c, s, t) == Returned(s1, t, Stored)
  {
  }

  lemma SetDeletes(c: Config, s: State, t: Tid)
    requires Global(c, s) && CanStep(c, s, t) && ThreadOk(c, s, t) && s.threads[t].pc.SetDelete?
    ensures Keeps(c, s, StepOf(c, s, t), t)
  {
    var s1 := Accessed(c, s, t, s.threads[t].pc);
    DeleteShape(c, s, t, s1);
    DeleteKeeps(c, s, s1, t);
  }

  // ---------------------------------------------------------------- enumerate

  /** Passing a null link means that everything in the bucket has been visited. */
  lemma EnumeratedNextBucket(c: Config, s: State, seen: seq<Visit>, since: nat, moments: seq<nat>, b: nat, index: nat)
    requires Lists(c, s) && since <= |s.hist.log| && b < c.size && index == |s.hist.lists[b]|
    requires Enumerated(s.mem.nodes, s.hist.place, s.hist.log, seen, since, moments, b, index)
    ensures Enumerated(s.mem.nodes, s.hist.place, s.hist.log, seen, since, moments, b + 1, 0)
  {
  }

  /** The enumeration moves on inside a bucket, to the next one, or has nothing left. */
  ghost predicate EnumMoves(c: Config, s: State, s': State, t: Tid, pc: PC) {
    && t in s.threads && (s.threads[t].pc.EnumHead? || s.threads[t].pc.EnumNext?)
    && pc.Owned().None?
    && s' == State(s.mem, s.threads[t := s.threads[t].(pc := pc, steps := s.threads[t].steps + 1)], s.hist)
  }

  lemma EnumMoveKeeps(c: Config, s: State, s': State, t: Tid, pc: PC)
    requires Global(c, s) && EnumMoves(c, s, s', t, pc) && ThreadOk(c, s', t)
    ensures Keeps(c, s, s', t)
  {
    Quiet(c, s, s', t);
  }

  /** The enumeration finds another node in its bucket. */
  lemma EnumFinds(c: Config, s: State, s': State, t: Tid, node: Addr)
    requires Lists(c, s) && t in s.threads && ThreadOk(c, s, t)
    requires s.threads[t].pc.EnumHead? || s.threads[t].pc.EnumNext?
    requires var pc := s.threads[t].pc;
             && pc.bucket < c.size
             && (pc.EnumNext? ==> pc.node < |s.mem.nodes|)
             && Some(node) == if pc.EnumHead? then s.mem.buckets[pc.bucket] else s.mem.nodes[pc.node].next
    requires EnumMoves(c, s, s', t, EnumAt(s.threads[t].pc.bucket, node, s.threads[t].pc.seen))
    ensures ThreadOk(c, s', t)
  {
    var th := s.threads[t];
    if th.pc.EnumHead? {
      assert s.hist.lists[th.pc.bucket][0] == node;
    } else {
      assert NextOk(s.mem.nodes, s.hist.lists, s.hist.place, th.pc.node);
      assert s.hist.lists[th.pc.bucket][s.hist.place[th.pc.node].index + 1] == node;
    }
    assert EnumeratorOk(c, s', s'.threads[t]);
  }

  /** A null link: everything in the bucket, and so everything before the next one, is visited. */
  lemma EnumPasses(c: Config, s: State, t: Tid)
    requires Lists(c, s) && t in s.threads && ThreadOk(c, s, t)
    requires s.threads[t].pc.EnumHead? || s.threads[t].pc.EnumNext?
    requires var pc := s.threads[t].pc;
             && pc.bucket < c.size
             && (pc.EnumNext? ==> pc.node < |s.mem.nodes|)
             && None == if pc.EnumHead? then s.mem.buckets[pc.bucket] else s.mem.nodes[pc.node].next
    ensures var th := s.threads[t]; Enumerated(s.mem.nodes, s.hist.place, s.hist.log, th.pc.seen, th.since, th.moments, th.pc.bucket + 1, 0)
  {
    var th := s.threads[t];
    if th.pc.EnumNext? {
      assert NextOk(s.mem.nodes, s.hist.lists, s.hist.place, th.pc.node);
    }
    EnumeratedNextBucket(c, s, th.pc.seen, th.since, th.moments, th.pc.bucket, Frontier(s.hist.place, th.pc));
  }

  lemma EnumNextThread(c: Config, s: State, s': State, t: Tid)
    requires Sized(c, s) && t in s.threads && ThreadOk(c, s, t)
    requires s.threads[t].pc.EnumHead? || s.threads[t].pc.EnumNext?
    requires var th := s.threads[t]; Enumerated(s.mem.nodes, s.hist.place, s.hist.log, th.pc.seen, th.since, th.moments, th.pc.bucket + 1, 0)
    requires EnumMoves(c, s, s', t, EnumHead(s.threads[t].pc.bucket + 1, s.threads[t].pc.seen))
    requires s.threads[t].pc.bucket + 1 < c.size
    ensures ThreadOk(c, s', t)
  {
    var th := s.threads[t];
    assert EnumeratorOk(c, s', s'.threads[t]);
  }

  lemma EnumDone(c: Config, s: State, s1: State, t: Tid)
    requires Sized(c, s) && t in s.threads && ThreadOk(c, s, t) && s.threads[t].call < |s.hist.calls|
    requires s.threads[t].pc.EnumHead? || s.threads[t].pc.EnumNext?
    requires var th := s.threads[t]; Enumerated(s.mem.nodes, s.hist.place, s.hist.log, th.pc.seen, th.since, th.moments, th.pc.bucket + 1, 0)
    requires EnumMoves(c, s, s1, t, s.threads[t].pc)
    requires s.threads[t].pc.bucket + 1 == c.size
    ensures DoneOk(c, Returned(s1, t, Listed(s.threads[t].pc.seen)), |s.hist.done|)
  {
    var th, s' := s.threads[t], Returned(s1, t, Listed(s.threads[t].pc.seen));
    assert Enumerated(s'.mem.nodes, s'.hist.place, s'.hist.log, th.pc.seen, th.since, th.moments, c.size, 0) by {
      forall x | 0 <= x < |th.pc.seen| ensures ValidVisit(s'.mem.nodes, s'.hist.place, s'.hist.log, th.pc.seen[x], th.since, th.moments[x]) {
        assert ValidVisit(s.mem.nodes, s.hist.place, s.hist.log, th.pc.seen[x], th.since, th.moments[x]);
      }
    }
    forall x | 0 <= x < |th.moments| ensures th.moments[x] <= |s.hist.log| {
      assert ValidVisit(s.mem.nodes, s.hist.place, s.hist.log, th.pc.seen[x], th.since, th.moments[x]);
    }
  }

  lemma EnumDoneKeeps(c: Config, s: State, s1: State, t: Tid)
    requires Global(c, s) && t in s.threads
    requires EnumMoves(c, s, s1, t, s.threads[t].pc)
    requires DoneOk(c, Returned(s1, t, Listed(s.threads[t].pc.seen)), |s.hist.done|)
    ensures Keeps(c, s, Returned(s1, t, Listed(s.threads[t].pc.seen)), t)
  {
    Quiet(c, s, s1, t);
    OwnsNothing(s1, t);
    Returns(c, s, s1, t, Listed(s.threads[t].pc.seen));
  }

  function EnumPointer(s: State, pc: PC): Option<Addr>
    requires pc.EnumHead? ==> pc.bucket < |s.mem.buckets|
    requires pc.EnumNext? ==> pc.node < |s.mem.nodes|
  {
    if pc.EnumHead? then s.mem.buckets[pc.bucket] else if pc.EnumNext? then s.mem.nodes[pc.node].next else None
  }

  /** What a step of `enumerate` that reads a pointer leads to, spelled out. */
  function EnumGo(s: State, t: Tid, pc: PC): State
    requires t in s.threads
  {
    State(s.mem, s.threads[t := s.threads[t].(pc := pc, steps := s.threads[t].steps + 1)], s.hist)
  }

  lemma EnumOnOk(c: Config, s: State, t: Tid, node: Addr)
    requires Lists(c, s) && t in s.threads && ThreadOk(c, s, t) && Safe(c, s.mem, s.threads[t].pc)
    requires s.threads[t].pc.EnumHead? || s.threads[t].pc.EnumNext?
    requires EnumPointer(s, s.threads[t].pc) == Some(node)
    ensures ThreadOk(c, EnumGo(s, t, EnumAt(s.threads[t].pc.bucket, node, s.threads[t].pc.seen)), t)
  {
    EnumFinds(c, s, EnumGo(s, t, EnumAt(s.threads[t].pc.bucket, node, s.threads[t].pc.seen)), t, node);
  }

  lemma EnumOnKeeps(c: Config, s: State, t: Tid, node: Addr)
    requires Global(c, s) && t in s.threads && ThreadOk(c, s, t) && Safe(c, s.mem, s.threads[t].pc)
    requires s.threads[t].pc.EnumHead? || s.threads[t].pc.EnumNext?
    requires EnumPointer(s, s.threads[t].pc) == Some(node)
    ensures Keeps(c, s, EnumGo(s, t, EnumAt(s.threads[t].pc.bucket, node, s.threads[t].pc.seen)), t)
  {
    var pc := EnumAt(s.threads[t].pc.bucket, node, s.threads[t].pc.seen);
    EnumOnOk(c, s, t, node);
    EnumMoveKeeps(c, s, EnumGo(s, t, pc), t, pc);
  }

  lemma EnumNextOk(c: Config, s: State, t: Tid)
    requires Lists(c, s) && t in s.threads && ThreadOk(c, s, t) && Safe(c, s.mem, s.threads[t].pc)
    requires s.threads[t].pc.EnumHead? || s.threads[t].pc.EnumNext?
    requires EnumPointer(s, s.threads[t].pc) == None && s.threads[t].pc.bucket + 1 < c.size
    ensures ThreadOk(c, EnumGo(s, t, EnumHead(s.threads[t].pc.bucket + 1, s.threads[t].pc.seen)), t)
  {
    EnumPasses(c, s, t);
    EnumNextThread(c, s, EnumGo(s, t, EnumHead(s.threads[t].pc.bucket + 1, s.threads[t].pc.seen)), t);
  }

  lemma EnumNextKeeps(c: Config, s: State, t: Tid)
    requires Global(c, s) && t in s.threads && ThreadOk(c, s, t) && Safe(c, s.mem, s.threads[t].pc)
    requires s.threads[t].pc.EnumHead? || s.threads[t].pc.EnumNext?
    requires EnumPointer(s, s.threads[t].pc) == None && s.threads[t].pc.bucket + 1 < c.size
    ensures Keeps(c, s, EnumGo(s, t, EnumHead(s.threads[t].pc.bucket + 1, s.threads[t].pc.seen)), t)
  {
    var pc := EnumHead(s.threads[t].pc.bucket + 1, s.threads[t].pc.seen);
    EnumNextOk(c, s, t);
    EnumMoveKeeps(c, s, EnumGo(s, t, pc), t, pc);
  }

  lemma EnumOffKeeps(c: Config, s: State, t: Tid)
    requires Global(c, s) && t in s.threads && ThreadOk(c, s, t) && Safe(c, s.mem, s.threads[t].pc)
    requires s.threads[t].pc.EnumHead? || s.threads[t].pc.EnumNext?
    requires s.threads[t].call < |s.hist.calls|
    requires EnumPointer(s, s.threads[t].pc) == None && s.threads[t].pc.bucket + 1 == c.size
    ensures Keeps(c, s, Returned(EnumGo(s, t, s.threads[t].pc), t, Listed(s.threads[t].pc.seen)), t)
  {
    EnumPasses(c, s, t);
    EnumDone(c, s, EnumGo(s, t, s.threads[t].pc), t);
    EnumDoneKeeps(c, s, EnumGo(s, t, s.threads[t].pc), t);
  }

  /** The state after a step of `enumerate` that reads the pointer `p`. */
  function EnumGoes(c: Config, s: State, t: Tid, p: Option<Addr>): State
    requires t in s.threads && s.threads[t].call < |s.hist.calls|
    requires s.threads[t].pc.EnumHead? || s.threads[t].pc.EnumNext?
  {
    match EnumArrive(c, s.threads[t].pc.bucket, p, s.threads[t].pc.seen)
    case Goto(pc) => EnumGo(s, t, pc)
    case Return(res) => Returned(EnumGo(s, t, s.threads[t].pc), t, res)
  }

  lemma EnumShape(c: Config, s: State, t: Tid)
    requires CanStep(c, s, t) && (s.threads[t].pc.EnumHead? || s.threads[t].pc.EnumNext?)
    ensures StepOf(c, s, t) == EnumGoes(c, s, t, EnumPointer(s, s.threads[t].pc))
  {
  }

  lemma EnumGoesKeeps(c: Config, s: State, t: Tid)
    requires Global(c, s) && t in s.threads && ThreadOk(c, s, t) && Safe(c, s.mem, s.threads[t].pc)
    requires s.threads[t].pc.EnumHead? || s.threads[t].pc.EnumNext?
    requires s.threads[t].call < |s.hist.calls|
    ensures Keeps(c, s, EnumGoes(c, s, t, EnumPointer(s, s.threads[t].pc)), t)
  {
    var th, p := s.threads[t], EnumPointer(s, s.threads[t].pc);
    if p.Some? {
      EnumOnKeeps(c, s, t, p.value);
    } else if th.pc.bucket + 1 < c.size {
      EnumNextKeeps(c, s, t);
    } else {
      EnumOffKeeps(c, s, t);
    }
  }

  lemma EnumWalks(c: Config, s: State, t: Tid)
    requires Global(c, s) && CanStep(c, s, t) && ThreadOk(c, s, t)
    requires s.threads[t].pc.EnumHead? || s.threads[t].pc.EnumNext?
    ensures Keeps(c, s, StepOf(c, s, t), t)
  {
    EnumShape(c, s, t);
    EnumGoesKeeps(c, s, t);
  }

  /** After the visit of `node`, everything up to and including its position is visited. */
  lemma VisitCovers(c: Config, s: State, seen: seq<Visit>, since: nat, moments: seq<nat>, node: Addr)
    requires Lists(c, s) && since <= |s.hist.log| && Linked(s.hist.place, node)
    requires Enumerated(s.mem.nodes, s.hist.place, s.hist.log, seen, since, moments, s.hist.place[node].bucket, s.hist.place[node].index)
    ensures var n, p := s.mem.nodes[node], s.hist.place[node];
            forall a | Linked(s.hist.place, a) && Earlier(s.hist.place[a], p.bucket, p.index + 1)
              && s.mem.nodes[a].key in Replay(s.hist.log[..since]) ::
              Visited(seen + [Visit(node, n.key, n.value)], s.mem.nodes[a].key)
  {
    var n, p := s.mem.nodes[node], s.hist.place[node];
    var seen' := seen + [Visit(node, n.key, n.value)];
    forall a | Linked(s.hist.place, a) && Earlier(s.hist.place[a], p.bucket, p.index + 1)
      && s.mem.nodes[a].key in Replay(s.hist.log[..since])
      ensures Visited(seen', s.mem.nodes[a].key)
    {
      if a == node {
        assert seen'[|seen|].key == s.mem.nodes[a].key;
      } else {
        assert s.hist.lists[p.bucket][p.index] == node;
        var x :| 0 <= x < |seen| && seen[x].key == s.mem.nodes[a].key;
        assert seen'[x].key == s.mem.nodes[a].key;
      }
    }
  }

  lemma VisitValid(c: Config, s: State, seen: seq<Visit>, since: nat, moments: seq<nat>, node: Addr)
    requires Lists(c, s) && Represents(s.mem.nodes, s.hist.place, Replay(s.hist.log)) && since <= |s.hist.log| && Linked(s.hist.place, node)
    requires Enumerated(s.mem.nodes, s.hist.place, s.hist.log, seen, since, moments, s.hist.place[node].bucket, s.hist.place[node].index)
    ensures var n, p := s.mem.nodes[node], s.hist.place[node];
            var seen', moments' := seen + [Visit(node, n.key, n.value)], moments + [|s.hist.log|];
            forall x | 0 <= x < |seen'| ::
              ValidVisit(s.mem.nodes, s.hist.place, s.hist.log, seen'[x], since, moments'[x]) && Earlier(s.hist.place[seen'[x].node], p.bucket, p.index + 1)
  {
    var n, p := s.mem.nodes[node], s.hist.place[node];
    var seen', moments' := seen + [Visit(node, n.key, n.value)], moments + [|s.hist.log|];
    assert s.hist.log[..|s.hist.log|] == s.hist.log;
    forall x | 0 <= x < |seen'|
      ensures ValidVisit(s.mem.nodes, s.hist.place, s.hist.log, seen'[x], since, moments'[x])
              && Earlier(s.hist.place[seen'[x].node], p.bucket, p.index + 1)
    {
      if x < |seen| {
        assert ValidVisit(s.mem.nodes, s.hist.place, s.hist.log, seen[x], since, moments[x]);
      }
    }
  }

  lemma VisitEnumerated(c: Config, s: State, seen: seq<Visit>, since: nat, moments: seq<nat>, node: Addr)
    requires Lists(c, s) && Represents(s.mem.nodes, s.hist.place, Replay(s.hist.log)) && since <= |s.hist.log| && Linked(s.hist.place, node)
    requires Enumerated(s.mem.nodes, s.hist.place, s.hist.log, seen, since, moments, s.hist.place[node].bucket, s.hist.place[node].index)
    ensures var n, p := s.mem.nodes[node], s.hist.place[node];
            Enumerated(s.mem.nodes, s.hist.place, s.hist.log, seen + [Visit(node, n.key, n.value)], since, moments + [|s.hist.log|], p.bucket, p.index + 1)
  {
    VisitValid(c, s, seen, since, moments, node);
    VisitOrdered(c, s, seen, since, moments, node);
    VisitCovers(c, s, seen, since, moments, node);
  }

  lemma VisitOrdered(c: Config, s: State, seen: seq<Visit>, since: nat, moments: seq<nat>, node: Addr)
    requires Lists(c, s) && since <= |s.hist.log| && Linked(s.hist.place, node)
    requires Enumerated(s.mem.nodes, s.hist.place, s.hist.log, seen, since, moments, s.hist.place[node].bucket, s.hist.place[node].index)
    ensures var n := s.mem.nodes[node];
            var seen' := seen + [Visit(node, n.key, n.value)];
            forall x, y | 0 <= x < y < |seen'| ::
              seen'[x].node < |s.hist.place| && seen'[y].node < |s.hist.place| &&
              var p := s.hist.place[seen'[y].node]; p.InBucket? && Earlier(s.hist.place[seen'[x].node], p.bucket, p.index)
  {
    var seen' := seen + [Visit(node, s.mem.nodes[node].key, s.mem.nodes[node].value)];
    forall x, y | 0 <= x < y < |seen'|
      ensures seen'[x].node < |s.hist.place| && seen'[y].node < |s.hist.place|
      ensures var p := s.hist.place[seen'[y].node]; p.InBucket? && Earlier(s.hist.place[seen'[x].node], p.bucket, p.index)
    {
      assert ValidVisit(s.mem.nodes, s.hist.place, s.hist.log, seen[x], since, moments[x]);
      if y < |seen| {
        assert ValidVisit(s.mem.nodes, s.hist.place, s.hist.log, seen[y], since, moments[y]);
      }
    }
  }

  lemma EnumVisitThread(c: Config, s: State, s': State, t: Tid)
    requires Lists(c, s) && Represents(s.mem.nodes, s.hist.place, Replay(s.hist.log)) && t in s.threads && ThreadOk(c, s, t) && s.threads[t].pc.EnumAt?
    requires s'.mem == s.mem && s'.hist == s.hist
    requires s.threads[t].pc.node < |s.mem.nodes| && t in s'.threads
    requires var th := s.threads[t];
             var n := s.mem.nodes[th.pc.node];
             s'.threads[t] == th.(
               pc := EnumNext(th.pc.bucket, th.pc.node, th.pc.seen + [Visit(th.pc.node, n.key, n.value)]),
               moments := th.moments + [|s.hist.log|], steps := th.steps + 1)
    ensures ThreadOk(c, s', t)
  {
    EnumVisitOk(c, s, s.threads[t], s'.threads[t]);
  }

  lemma EnumVisitOk(c: Config, s: State, th: Thread, th': Thread)
    requires Lists(c, s) && Represents(s.mem.nodes, s.hist.place, Replay(s.hist.log))
    requires th.pc.EnumAt? && th.since <= |s.hist.log| && EnumeratorOk(c, s, th)
    requires Linked(s.hist.place, th.pc.node) && s.hist.place[th.pc.node].bucket == th.pc.bucket
    requires var n := s.mem.nodes[th.pc.node];
             th' == th.(
               pc := EnumNext(th.pc.bucket, th.pc.node, th.pc.seen + [Visit(th.pc.node, n.key, n.value)]),
               moments := th.moments + [|s.hist.log|], steps := th.steps + 1)
    ensures EnumeratorOk(c, s, th')
  {
    var p := s.hist.place[th.pc.node];
    EnumeratorStands(c, s, th);
    VisitedOnceMore(c, s, th.pc.seen, th.since, th.moments, th.pc.node, th'.pc.seen, th'.moments);
    FrontierAfter(s.hist.place, th'.pc);
    EnumeratesOn(c, s, th', p.bucket, p.index + 1);
  }

  lemma EnumeratorStands(c: Config, s: State, th: Thread)
    requires Sized(c, s) && th.since <= |s.hist.log| && th.pc.EnumAt? && EnumeratorOk(c, s, th)
    requires Linked(s.hist.place, th.pc.node) && s.hist.place[th.pc.node].bucket == th.pc.bucket
    ensures var p := s.hist.place[th.pc.node];
            Enumerated(s.mem.nodes, s.hist.place, s.hist.log, th.pc.seen, th.since, th.moments, p.bucket, p.index)
    ensures th.op == Enumerate && th.pc.bucket < c.size
  {
  }

  lemma VisitedOnceMore(c: Config, s: State, seen: seq<Visit>, since: nat, moments: seq<nat>, node: Addr, seen': seq<Visit>, moments': seq<nat>)
    requires Lists(c, s) && Represents(s.mem.nodes, s.hist.place, Replay(s.hist.log)) && since <= |s.hist.log| && Linked(s.hist.place, node)
    requires Enumerated(s.mem.nodes, s.hist.place, s.hist.log, seen, since, moments, s.hist.place[node].bucket, s.hist.place[node].index)
    requires seen' == seen + [Visit(node, s.mem.nodes[node].key, s.mem.nodes[node].value)] && moments' == moments + [|s.hist.log|]
    ensures var p := s.hist.place[node];
            Enumerated(s.mem.nodes, s.hist.place, s.hist.log, seen', since, moments', p.bucket, p.index + 1)
  {
    VisitEnumerated(c, s, seen, since, moments, node);
  }

  lemma FrontierAfter(place: seq<Place>, pc: PC)
    requires pc.EnumNext? && Linked(place, pc.node)
    ensures Frontier(place, pc) == place[pc.node].index + 1
  {
  }

  lemma EnumeratesOn(c: Config, s: State, th: Thread, bucket: nat, frontier: nat)
    requires Sized(c, s) && th.since <= |s.hist.log| && th.pc.EnumNext? && th.op == Enumerate && th.pc.bucket < c.size
    requires th.pc.bucket == bucket && Frontier(s.hist.place, th.pc) == frontier
    requires Enumerated(s.mem.nodes, s.hist.place, s.hist.log, th.pc.seen, th.since, th.moments, bucket, frontier)
    ensures EnumeratorOk(c, s, th)
  {
  }

  lemma EnumVisitShape(c: Config, s: State, t: Tid)
    requires CanStep(c, s, t) && s.threads[t].pc.EnumAt?
    ensures var th, s' := s.threads[t], StepOf(c, s, t);
            var n := s.mem.nodes[th.pc.node];
            && QuietStep(s, s', t) && s'.mem == s.mem
            && s'.threads[t] == th.(
                 pc := EnumNext(th.pc.bucket, th.pc.node, th.pc.seen + [Visit(th.pc.node, n.key, n.value)]),
                 moments := th.moments + [|s.hist.log|], steps := th.steps + 1)
  {
  }

  lemma EnumVisits(c: Config, s: State, t: Tid)
    requires Global(c, s) && CanStep(c, s, t) && ThreadOk(c, s, t) && s.threads[t].pc.EnumAt?
    ensures Keeps(c, s, StepOf(c, s, t), t)
  {
    EnumVisitShape(c, s, t);
    Quiet(c, s, StepOf(c, s, t), t);
    EnumVisitThread(c, s, StepOf(c, s, t), t);
  }
}
