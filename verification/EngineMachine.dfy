/** The lock-free key-value engine (DataEngine.cpp) as a machine that any number of threads drive.

    One step of a thread is one access to shared memory (a load, a store, a compare-exchange or a
    fetch-add), together with the reads of constant node keys that precede it. Keys, values and the
    hash function are arbitrary. `Memory` and `PC` are what the program holds; `Access` computes
    them from each other only. `History` is bookkeeping that no step of the program reads. */
module EngineMachine {
  import opened Options

  type Addr = nat
  type Tid = nat

  const COUNTER_RANGE: nat := 0x1_0000_0000_0000_0000

  /** A hash function and a positive bucket count. */
  datatype RawConfig = RawConfig(hash: string -> nat, size: nat)
  type Config = c: RawConfig | c.size > 0 witness RawConfig(k => 0, 1)

  function BucketOf(c: Config, key: string): (b: nat)
    ensures b < c.size
  {
    c.hash(key) % c.size
  }

  // ---------------------------------------------------------------- the program's state

  datatype Node = Node(key: string, value: string, next: Option<Addr>)

  /** Nodes are numbered in the order of their allocation; `freed` are those given back. */
  datatype Memory = Memory(
    buckets: seq<Option<Addr>>,
    nodes: seq<Node>,
    freed: set<Addr>,
    hits: nat,
    misses: nat)

  datatype Op = Get(key: string) | Set(key: string, value: string) | Enumerate

  datatype Visit = Visit(node: Addr, key: string, value: string)

  datatype Result = Found(value: string) | Missing | Stored | Listed(visits: seq<Visit>)

  /** Where a running call stands: the access it makes next, with its local variables. */
  datatype PC =
    | GetHead(key: string)
    | GetAt(key: string, node: Addr)
    | GetValue(key: string, node: Addr)
    | GetMiss(key: string)
    | SetNew(key: string, value: string)
    | SetHead(key: string, value: string, own: Addr)
    | SetAt(key: string, value: string, own: Addr, node: Addr)
    | SetDelete(own: Addr)
    | EnumHead(bucket: nat, seen: seq<Visit>)
    | EnumAt(bucket: nat, node: Addr, seen: seq<Visit>)
    | EnumNext(bucket: nat, node: Addr, seen: seq<Visit>)
  {
    /** The node this call will dereference, if any. */
    function Target(): Option<Addr> {
      match this
      case GetAt(_, node) => Some(node)
      case GetValue(_, node) => Some(node)
      case SetAt(_, _, _, node) => Some(node)
      case EnumAt(_, node, _) => Some(node)
      case EnumNext(_, node, _) => Some(node)
      case _ => None
    }

    /** The node this call created and still owns, if any. */
    function Owned(): Option<Addr> {
      match this
      case SetHead(_, _, own) => Some(own)
      case SetAt(_, _, own, _) => Some(own)
      case SetDelete(own) => Some(own)
      case _ => None
    }
  }

  function Start(op: Op): PC {
    match op
    case Get(key) => GetHead(key)
    case Set(key, value) => SetNew(key, value)
    case Enumerate => EnumHead(0, [])
  }

  datatype Then = Goto(pc: PC) | Return(res: Result)

  /** What a step means for the bookkeeping. */
  datatype Effect =
    | Silent
    | Hits(value: string)
    | Misses
    | Creates
    | Links(bucket: nat)
    | Overwrites
    | Deletes
    | Visits

  datatype Outcome = Outcome(mem: Memory, then_: Then, effect: Effect, isCas: bool)

  predicate Live(m: Memory, a: Addr) {
    a < |m.nodes| && a !in m.freed
  }

  /** The access touches only memory that exists and has not been given back. */
  predicate Safe(c: Config, m: Memory, pc: PC) {
    && |m.buckets| == c.size
    && (pc.Target().Some? ==> Live(m, pc.Target().value))
    && (pc.Owned().Some? ==> Live(m, pc.Owned().value))
    && (pc.EnumHead? || pc.EnumAt? || pc.EnumNext? ==> pc.bucket < c.size)
  }

  function Bump(n: nat): nat {
    (n + 1) % COUNTER_RANGE
  }

  /** After a `get` has loaded a pointer. */
  function GetArrive(key: string, p: Option<Addr>): PC {
    match p
    case None => GetMiss(key)
    case Some(a) => GetAt(key, a)
  }

  /** After `enumerate` has loaded a pointer in bucket `b`. */
  function EnumArrive(c: Config, b: nat, p: Option<Addr>, seen: seq<Visit>): Then {
    match p
    case Some(a) => Goto(EnumAt(b, a, seen))
    case None => if b + 1 < c.size then Goto(EnumHead(b + 1, seen)) else Return(Listed(seen))
  }

  /** One access of a call, exactly as the source performs it. */
  function Access(c: Config, m: Memory, pc: PC): Outcome
    requires Safe(c, m, pc)
  {
    match pc
    case GetHead(key) =>
      var p := m.buckets[BucketOf(c, key)];
      Outcome(m, Goto(GetArrive(key, p)), if p.None? then Misses else Silent, false)
    case GetAt(key, a) =>
      if m.nodes[a].key == key then
        Outcome(m.(hits := Bump(m.hits)), Goto(GetValue(key, a)), Silent, false)
      else
        var p := m.nodes[a].next;
        Outcome(m, Goto(GetArrive(key, p)), if p.None? then Misses else Silent, false)
    case GetValue(key, a) =>
      var v := m.nodes[a].value;
      Outcome(m, Return(Found(v)), Hits(v), false)
    case GetMiss(key) =>
      Outcome(m.(misses := Bump(m.misses)), Return(Missing), Silent, false)
    case SetNew(key, value) =>
      Outcome(m.(nodes := m.nodes + [Node(key, value, None)]),
              Goto(SetHead(key, value, |m.nodes|)), Creates, false)
    case SetHead(key, value, own) =>
      var b := BucketOf(c, key);
      (match m.buckets[b]
       case None => Outcome(m.(buckets := m.buckets[b := Some(own)]), Return(Stored), Links(b), true)
       case Some(a) => Outcome(m, Goto(SetAt(key, value, own, a)), Silent, true))
    case SetAt(key, value, own, a) =>
      var n := m.nodes[a];
      if n.key == key then
        Outcome(m.(nodes := m.nodes[a := n.(value := m.nodes[own].value)]), Goto(SetDelete(own)), Overwrites, false)
      else
        (match n.next
         case None =>
           Outcome(m.(nodes := m.nodes[a := n.(next := Some(own))]), Return(Stored), Links(BucketOf(c, key)), true)
         case Some(q) => Outcome(m, Goto(SetAt(key, value, own, q)), Silent, true))
    case SetDelete(own) =>
      Outcome(m.(freed := m.freed + {own}), Return(Stored), Deletes, false)
    case EnumHead(b, seen) =>
      Outcome(m, EnumArrive(c, b, m.buckets[b], seen), Silent, false)
    case EnumAt(b, a, seen) =>
      Outcome(m, Goto(EnumNext(b, a, seen + [Visit(a, m.nodes[a].key, m.nodes[a].value)])), Visits, false)
    case EnumNext(b, a, seen) =>
      Outcome(m, EnumArrive(c, b, m.nodes[a].next, seen), Silent, false)
  }

  // ---------------------------------------------------------------- bookkeeping

  /** The specification: a plain map, and the answer it gives to each operation. */
  type Contents = map<string, string>

  function Answer(m: Contents, op: Op): Result {
    match op
    case Get(key) => if key in m then Found(m[key]) else Missing
    case Set(_, _) => Stored
    case Enumerate => Listed([])
  }

  function Update(m: Contents, op: Op): Contents {
    match op
    case Get(_) => m
    case Set(key, value) => m[key := value]
    case Enumerate => m
  }

  /** A `get` or `set` at the moment it takes effect. */
  datatype Lin = Lin(call: nat, op: Op, res: Result)

  /** The map after the logged operations, one at a time. */
  function Replay(log: seq<Lin>): Contents {
    if log == [] then map[] else Update(Replay(log[..|log| - 1]), log[|log| - 1].op)
  }

  /** Where an allocated node is: behind a call's unique_ptr, at a position of a bucket, or freed. */
  datatype Place = OwnedBy(thread: Tid) | InBucket(bucket: nat, index: nat) | Freed

  /** A call, by its number: who runs it or which return it is, and where in the log it took effect. */
  datatype Role = Running(thread: Tid) | Over(index: nat)
  datatype Call = Call(role: Role, at: Option<nat>)

  /** A running call: its number and operation, how many calls had returned and how long the log was
      when it was invoked, the moments of its visits, and its costs. */
  datatype Thread = Thread(
    pc: PC, call: nat, op: Op, before: nat, since: nat, moments: seq<nat>, steps: nat, cas: nat)

  /** A call that has returned; `until` is how long the log was then. */
  datatype Done = Done(
    call: nat, op: Op, res: Result, before: nat, since: nat, until: nat, moments: seq<nat>, steps: nat, cas: nat)

  datatype History = History(
    lists: seq<seq<Addr>>,
    place: seq<Place>,
    log: seq<Lin>,
    done: seq<Done>,
    calls: seq<Call>)

  datatype State = State(mem: Memory, threads: map<Tid, Thread>, hist: History)

  function Init(c: Config): State {
    State(
      Memory(seq(c.size, i => None), [], {}, 0, 0),
      map[],
      History(seq(c.size, i => []), [], [], [], []))
  }

  datatype Event = Invoke(thread: Tid, op: Op) | Step(thread: Tid)

  function Logged(h: History, th: Thread, res: Result): History
    requires th.call < |h.calls|
  {
    h.(log := h.log + [Lin(th.call, th.op, res)],
       calls := h.calls[th.call := h.calls[th.call].(at := Some(|h.log|))])
  }

  /** How one step's effect is written down. */
  function Note(h: History, t: Tid, th: Thread, e: Effect): History
    requires th.call < |h.calls|
    requires e.Links? ==> e.bucket < |h.lists| && th.pc.Owned().Some? && th.pc.Owned().value < |h.place|
    requires e.Deletes? ==> th.pc.Owned().Some? && th.pc.Owned().value < |h.place|
  {
    match e
    case Silent => h
    case Visits => h
    case Hits(v) => Logged(h, th, Found(v))
    case Misses => Logged(h, th, Missing)
    case Overwrites => Logged(h, th, Stored)
    case Creates => h.(place := h.place + [OwnedBy(t)])
    case Links(b) =>
      var own := th.pc.Owned().value;
      Logged(h.(lists := h.lists[b := h.lists[b] + [own]],
                place := h.place[own := InBucket(b, |h.lists[b]|)]), th, Stored)
    case Deletes => h.(place := h.place[th.pc.Owned().value := Freed])
  }

  predicate CanStep(c: Config, s: State, t: Tid) {
    && t in s.threads
    && s.threads[t].call < |s.hist.calls|
    && Safe(c, s.mem, s.threads[t].pc)
    && |s.hist.lists| == c.size
    && |s.hist.place| == |s.mem.nodes|
  }

  /** The state with the access made and written down, and the call standing at `pc`. */
  function Accessed(c: Config, s: State, t: Tid, pc: PC): State
    requires CanStep(c, s, t)
  {
    var th := s.threads[t];
    var out := Access(c, s.mem, th.pc);
    var th' := th.(
      pc := pc,
      moments := if out.effect.Visits? then th.moments + [|s.hist.log|] else th.moments,
      steps := th.steps + 1,
      cas := th.cas + if out.isCas then 1 else 0);
    State(out.mem, s.threads[t := th'], Note(s.hist, t, th, out.effect))
  }

  /** The call of thread `t` returns `res`. */
  function Returned(s: State, t: Tid, res: Result): State
    requires t in s.threads && s.threads[t].call < |s.hist.calls|
  {
    var th, h := s.threads[t], s.hist;
    var d := Done(th.call, th.op, res, th.before, th.since, |h.log|, th.moments, th.steps, th.cas);
    State(s.mem, s.threads - {t},
          h.(done := h.done + [d],
             calls := h.calls[th.call := h.calls[th.call].(role := Over(|h.done|))]))
  }

  /** Thread `t` makes one access. */
  function StepOf(c: Config, s: State, t: Tid): State
    requires CanStep(c, s, t)
  {
    match Access(c, s.mem, s.threads[t].pc).then_
    case Goto(pc) => Accessed(c, s, t, pc)
    case Return(res) => Returned(Accessed(c, s, t, s.threads[t].pc), t, res)
  }

  function InvokeOf(s: State, t: Tid, op: Op): State {
    var h := s.hist;
    State(
      s.mem,
      s.threads[t := Thread(Start(op), |h.calls|, op, |h.done|, |h.log|, [], 0, 0)],
      h.(calls := h.calls + [Call(Running(t), None)]))
  }

  /** An event that is not possible changes nothing: an idle thread cannot step, a busy one cannot
      start a call. That an unsafe access never comes up is a theorem. */
  function Next(c: Config, s: State, e: Event): State {
    match e
    case Invoke(t, op) => if t in s.threads then s else InvokeOf(s, t, op)
    case Step(t) => if CanStep(c, s, t) then StepOf(c, s, t) else s
  }

  function Run(c: Config, s: State, es: seq<Event>): State {
    if es == [] then s else Next(c, Run(c, s, es[..|es| - 1]), es[|es| - 1])
  }

  ghost predicate Reachable(c: Config, s: State) {
    exists es: seq<Event> :: s == Run(c, Init(c), es)
  }
}
