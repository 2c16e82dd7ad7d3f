/** The engine's theorems, for every run of any number of threads. */
module EngineRuns {
  import opened Options
  import opened EngineMachine
  import opened EngineInvariant
  import opened EngineSteps

  // ---------------------------------------------------------------- every reachable state satisfies the invariant

  lemma StepKeeps(c: Config, s: State, t: Tid)
    requires Inv(c, s) && t in s.threads
    ensures CanStep(c, s, t) && Keeps(c, s, StepOf(c, s, t), t) && Inv(c, StepOf(c, s, t))
  {
    StepIsSafe(c, s, t);
    assert ThreadOk(c, s, t);
    StepKeepsAt(c, s, t);
    Combine(c, s, StepOf(c, s, t), t);
  }

  lemma StepKeepsAt(c: Config, s: State, t: Tid)
    requires Global(c, s) && CanStep(c, s, t) && ThreadOk(c, s, t)
    ensures Keeps(c, s, StepOf(c, s, t), t)
  {
    match s.threads[t].pc
    case GetHead(_) => GetWalksOrMisses(c, s, t);
    case GetAt(_, _) => GetWalksOrMisses(c, s, t);
    case GetValue(_, _) => GetReturnsFound(c, s, t);
    case GetMiss(_) => GetReturnsMissing(c, s, t);
    case SetNew(_, _) => SetCreates(c, s, t);
    case SetHead(_, _, _) => SetWalksOrTakes(c, s, t);
    case SetAt(_, _, _, _) => SetWalksOrTakes(c, s, t);
    case SetDelete(_) => SetDeletes(c, s, t);
    case EnumHead(_, _) => EnumWalks(c, s, t);
    case EnumAt(_, _, _) => EnumVisits(c, s, t);
    case EnumNext(_, _, _) => EnumWalks(c, s, t);
  }

  lemma GetWalksOrMisses(c: Config, s: State, t: Tid)
    requires Global(c, s) && CanStep(c, s, t) && ThreadOk(c, s, t)
    requires s.threads[t].pc.GetHead? || s.threads[t].pc.GetAt?
    ensures Keeps(c, s, StepOf(c, s, t), t)
  {
    if Access(c, s.mem, s.threads[t].pc).effect == Misses {
      GetMisses(c, s, t);
    } else {
      GetWalks(c, s, t);
    }
  }

  lemma SetWalksOrTakes(c: Config, s: State, t: Tid)
    requires Global(c, s) && CanStep(c, s, t) && ThreadOk(c, s, t)
    requires s.threads[t].pc.SetHead? || s.threads[t].pc.SetAt?
    ensures Keeps(c, s, StepOf(c, s, t), t)
  {
    var effect := Access(c, s.mem, s.threads[t].pc).effect;
    SetEffects(c, s.mem, s.threads[t].pc);
    if effect.Links? {
      SetLinks(c, s, t);
    } else if effect == Overwrites {
      SetOverwrites(c, s, t);
    } else {
      SetWalks(c, s, t);
    }
  }

  lemma SetEffects(c: Config, m: Memory, pc: PC)
    requires Safe(c, m, pc) && (pc.SetHead? || pc.SetAt?)
    ensures var effect := Access(c, m, pc).effect;
            && (effect.Links? || effect == Overwrites || effect == Silent)
            && (effect == Overwrites ==> pc.SetAt? && m.nodes[pc.node].key == pc.key)
  {
  }

  lemma InvokeExtends(c: Config, s: State, t: Tid, op: Op)
    requires Sized(c, s) && t !in s.threads
    ensures Extends(c, s, InvokeOf(s, t, op), t)
  {
  }

  lemma InvokeGlobal(c: Config, s: State, t: Tid, op: Op)
    requires Global(c, s) && t !in s.threads
    ensures Global(c, InvokeOf(s, t, op))
  {
    var s' := InvokeOf(s, t, op);
    forall k ensures CallOk(s', k) {
      assert CallOk(s, k);
    }
    assert forall a | 0 <= a < |s.hist.place| :: s.hist.place[a] != OwnedBy(t);
  }

  lemma InvokeStarts(c: Config, s: State, t: Tid, op: Op)
    requires Inv(c, s) && t !in s.threads
    ensures Sized(c, InvokeOf(s, t, op)) && ThreadOk(c, InvokeOf(s, t, op), t)
  {
    forall i | 0 <= i < |s.hist.done| ensures s.hist.done[i].until <= |s.hist.log| {
      assert DoneOk(c, s, i);
    }
  }

  lemma InvokeKeeps(c: Config, s: State, t: Tid, op: Op)
    requires Inv(c, s) && t !in s.threads
    ensures Keeps(c, s, InvokeOf(s, t, op), t) && Inv(c, InvokeOf(s, t, op))
  {
    InvokeGlobal(c, s, t, op);
    InvokeExtends(c, s, t, op);
    InvokeStarts(c, s, t, op);
    Combine(c, s, InvokeOf(s, t, op), t);
  }

  lemma InitKeeps(c: Config)
    ensures Inv(c, Init(c))
  {
  }

  lemma NextKeeps(c: Config, s: State, e: Event)
    requires Inv(c, s)
    ensures Inv(c, Next(c, s, e))
  {
    match e
    case Invoke(t, op) => if t !in s.threads { InvokeKeeps(c, s, t, op); }
    case Step(t) => if t in s.threads { StepKeeps(c, s, t); }
  }

  lemma {:induction false} RunKeeps(c: Config, s: State, es: seq<Event>)
    requires Inv(c, s)
    ensures Inv(c, Run(c, s, es))
    decreases |es|
  {
    if es != [] {
      RunKeeps(c, s, es[..|es| - 1]);
      NextKeeps(c, Run(c, s, es[..|es| - 1]), es[|es| - 1]);
    }
  }

  lemma ReachableInv(c: Config, s: State)
    requires Reachable(c, s)
    ensures Inv(c, s)
  {
    var es: seq<Event> :| s == Run(c, Init(c), es);
    InitKeeps(c);
    RunKeeps(c, Init(c), es);
  }
}
