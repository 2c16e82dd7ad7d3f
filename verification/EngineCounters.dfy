/** The two read counters, modulo their 64-bit width. */
module EngineCounters {
  import opened Options
  import opened EngineMachine

  function Hits(done: seq<Done>): nat {
    if done == [] then 0 else Hits(done[..|done| - 1]) + if done[|done| - 1].res.Found? then 1 else 0
  }

  function Misses(done: seq<Done>): nat {
    if done == [] then 0 else Misses(done[..|done| - 1]) + if done[|done| - 1].res.Missing? then 1 else 0
  }

  /** The `get`s that have counted their hit and not yet loaded the value. */
  function Between(threads: map<Tid, Thread>): set<Tid> {
    set t | t in threads && threads[t].pc.GetValue?
  }

  /** The hit counter runs ahead of the returned hits by exactly the calls in between; the miss counter
      is exact; both wrap around. */
  ghost predicate Counted(s: State) {
    && s.mem.hits == (Hits(s.hist.done) + |Between(s.threads)|) % COUNTER_RANGE
    && s.mem.misses == Misses(s.hist.done) % COUNTER_RANGE
  }

  lemma PushDone(done: seq<Done>, d: Done)
    ensures Hits(done + [d]) == Hits(done) + if d.res.Found? then 1 else 0
    ensures Misses(done + [d]) == Misses(done) + if d.res.Missing? then 1 else 0
  {
    assert (done + [d])[..|done + [d]| - 1] == done;
  }

  lemma BetweenUpdate(threads: map<Tid, Thread>, t: Tid, th: Thread)
    ensures Between(threads[t := th]) ==
            if th.pc.GetValue? then Between(threads) + {t} else Between(threads) - {t}
    ensures Between(threads - {t}) == Between(threads) - {t}
  {
  }

  /** The counters move when a hit is about to be read and when a miss is returned, and only then. */
  lemma AccessCounts(c: Config, m: Memory, pc: PC)
    requires Safe(c, m, pc)
    ensures var out := Access(c, m, pc);
            match out.then_
            case Goto(pc') =>
              && out.mem.misses == m.misses && !pc.GetValue?
              && out.mem.hits == (if pc'.GetValue? then Bump(m.hits) else m.hits)
            case Return(res) =>
              && out.mem.hits == m.hits && (res.Found? <==> pc.GetValue?)
              && out.mem.misses == (if res.Missing? then Bump(m.misses) else m.misses)
  {
  }

  lemma BumpWraps(n: nat)
    ensures Bump(n % COUNTER_RANGE) == (n + 1) % COUNTER_RANGE
  {
  }

  lemma GotoCounts(s: State, s': State, t: Tid)
    requires Counted(s) && t in s.threads && t in s'.threads && !s.threads[t].pc.GetValue?
    requires s'.threads == s.threads[t := s'.threads[t]] && s'.hist.done == s.hist.done
    requires s'.mem.misses == s.mem.misses
    requires s'.mem.hits == if s'.threads[t].pc.GetValue? then Bump(s.mem.hits) else s.mem.hits
    ensures Counted(s')
  {
    BetweenUpdate(s.threads, t, s'.threads[t]);
    BumpWraps(Hits(s.hist.done) + |Between(s.threads)|);
  }

  lemma ReturnCounts(s: State, s': State, t: Tid, d: Done)
    requires Counted(s) && t in s.threads && (d.res.Found? <==> s.threads[t].pc.GetValue?)
    requires s'.threads == s.threads - {t} && s'.hist.done == s.hist.done + [d]
    requires s'.mem.hits == s.mem.hits
    requires s'.mem.misses == if d.res.Missing? then Bump(s.mem.misses) else s.mem.misses
    ensures Counted(s')
  {
    BetweenUpdate(s.threads, t, s.threads[t]);
    PushDone(s.hist.done, d);
    assert Hits(s'.hist.done) + |Between(s'.threads)| == Hits(s.hist.done) + |Between(s.threads)|;
    ReturnMisses(s.hist.done, d);
  }

  lemma ReturnMisses(done: seq<Done>, d: Done)
    ensures var misses := Misses(done) % COUNTER_RANGE;
            (if d.res.Missing? then Bump(misses) else misses) == Misses(done + [d]) % COUNTER_RANGE
  {
    PushDone(done, d);
    BumpWraps(Misses(done));
  }

  lemma StepCounts(c: Config, s: State, t: Tid)
    requires CanStep(c, s, t) && Counted(s)
    ensures Counted(StepOf(c, s, t))
  {
    AccessCounts(c, s.mem, s.threads[t].pc);
    match Access(c, s.mem, s.threads[t].pc).then_
    case Goto(pc) =>
      GotoCounts(s, Accessed(c, s, t, pc), t);
    case Return(res) =>
      var s' := Returned(Accessed(c, s, t, s.threads[t].pc), t, res);
      assert s'.threads == s.threads - {t};
      ReturnCounts(s, s', t, s'.hist.done[|s.hist.done|]);
  }

  lemma InvokeCounts(s: State, t: Tid, op: Op)
    requires Counted(s) && t !in s.threads
    ensures Counted(InvokeOf(s, t, op))
  {
    BetweenUpdate(s.threads, t, InvokeOf(s, t, op).threads[t]);
  }

  lemma NextCounts(c: Config, s: State, e: Event)
    requires Counted(s)
    ensures Counted(Next(c, s, e))
  {
    match e
    case Invoke(t, op) =>
      if t !in s.threads {
        InvokeCounts(s, t, op);
      }
    case Step(t) =>
      if CanStep(c, s, t) {
        StepCounts(c, s, t);
      }
  }

  lemma {:induction false} RunCounts(c: Config, es: seq<Event>)
    ensures Counted(Run(c, Init(c), es))
    decreases |es|
  {
    if es != [] {
      var s, e := Run(c, Init(c), es[..|es| - 1]), es[|es| - 1];
      RunCounts(c, es[..|es| - 1]);
      NextCounts(c, s, e);
    }
  }

  lemma Statistics(c: Config, s: State)
    requires Reachable(c, s)
    ensures Counted(s)
  {
    var es: seq<Event> :| s == Run(c, Init(c), es);
    RunCounts(c, es);
  }

  /** Without running calls, the counters are the numbers of hits and misses returned. */
  lemma QuiescentStatistics(c: Config, s: State)
    requires Reachable(c, s) && s.threads == map[]
    ensures s.mem.hits == Hits(s.hist.done) % COUNTER_RANGE
    ensures s.mem.misses == Misses(s.hist.done) % COUNTER_RANGE
  {
    Statistics(c, s);
    assert Between(s.threads) == {};
  }
}
