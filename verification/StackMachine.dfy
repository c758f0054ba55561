/** The lock-free stack as a step machine: any number of threads, one access
    to shared memory per step, every interleaving.

    The pool is abstract: a set of node addresses. A node in the pool may be
    overwritten at any time, and its memory is never unmapped. */
module StackMachine {
  import opened Bits

  // The algorithm only moves values around and never looks at them.
  type Value = int

  datatype Op = PushOp(v: Value) | PopOp

  // What an operation does to the abstract stack at its linearization point.
  datatype Event = Pushed(v: Value) | Popped(v: Value) | FoundEmpty

  datatype Result = PushResult(ok: bool) | PopTrue(v: Value) | PopFalse

  datatype Action =
    | Call(t: nat, op: Op)
    | Lin(t: nat, ev: Event)
    | Return(t: nat, res: Result)

  /** Where a thread stands. _at_ records the number of successful CASes at
      the thread's last load of _top_; it and the value in PushCount are
      history, never read by the algorithm. */
  datatype Pc =
    | Idle
    | PushAlloc(v: Value)
    | PushData(v: Value, node: nat)
    | PushLoad(node: nat)
    | PushLink(node: nat, seen: nat, at: nat)
    | PushCas(node: nat, seen: nat, at: nat)
    | PushCount(v: Value)
    | PopLoad
    | PopNext(seen: nat, at: nat)
    | PopCas(seen: nat, next: nat, at: nat)
    | PopCount(node: nat)
    | PopData(node: nat)
    | PopFree(node: nat, out: Value)

  /** Shared memory, the threads, and history: the addresses on the chain,
      the successful CASes so far, each thread's successful and failed
      CASes, and the trace of calls, linearization points and returns. */
  datatype State = State(
    bits: nat,
    top: nat,
    size: int,
    next: map<nat, nat>,
    data: map<nat, Value>,
    pool: set<nat>,
    pcs: seq<Pc>,
    chain: seq<nat>,
    cas: nat,
    wins: seq<nat>,
    fails: seq<nat>,
    trace: seq<Action>)

  /** One move: a thread starts an operation, the pool answers Alloc, or the
      thread makes its next access; Scribble is the pool's owner writing to a
      node it holds. */
  datatype Choice =
    | CallPush(v: Value)
    | CallPop
    | Take(n: nat)
    | NoMemory
    | Go
    | Scribble(n: nat, link: nat, v: Value)

  datatype Move = Move(t: nat, c: Choice)

  function Read<V>(m: map<nat, V>, a: nat, default: V): V {
    if a in m then m[a] else default
  }

  predicate Enabled(s: State, m: Move) {
    && m.t < |s.pcs|
    && match m.c {
         case CallPush(_) => s.pcs[m.t].Idle?
         case CallPop => s.pcs[m.t].Idle?
         case Take(n) => s.pcs[m.t].PushAlloc? && n in s.pool
         case NoMemory => s.pcs[m.t].PushAlloc? && s.pool == {}
         case Go => !s.pcs[m.t].Idle? && !s.pcs[m.t].PushAlloc?
         case Scribble(n, _, _) => n in s.pool
       }
  }

  function Bump(ns: seq<nat>, t: nat): seq<nat> {
    if t < |ns| then ns[t := ns[t] + 1] else ns
  }

  // Thread t moves on to pc, leaving acts in the trace.
  function At(s: State, t: nat, pc: Pc, acts: seq<Action>): State
    requires t < |s.pcs|
  {
    s.(pcs := s.pcs[t := pc], trace := s.trace + acts)
  }

  function Won(s: State, t: nat, top: nat, chain: seq<nat>): State {
    s.(top := top, chain := chain, cas := s.cas + 1, wins := Bump(s.wins, t))
  }

  // The thread's next access to shared memory.
  function Access(s: State, t: nat): State
    requires Enabled(s, Move(t, Go))
  {
    match s.pcs[t]
    case PushData(v, n) =>
      At(s, t, PushLoad(n), []).(data := s.data[n := v])
    case PushLoad(n) =>
      At(s, t, PushLink(n, s.top, s.cas), [])
    case PushLink(n, seen, at) =>
      At(s, t, PushCas(n, seen, at), []).(next := s.next[n := Addr(seen, s.bits)])
    case PushCas(n, seen, at) =>
      if s.top == seen then
        var v := Read(s.data, n, 0);
        At(Won(s, t, Pack(n, Count(seen, s.bits) + 1, s.bits), [n] + s.chain), t,
           PushCount(v), [Lin(t, Pushed(v))])
      else
        At(s, t, PushLoad(n), []).(fails := Bump(s.fails, t))
    case PushCount(v) =>
      At(s, t, Idle, [Return(t, PushResult(true))]).(size := s.size + 1)
    case PopLoad =>
      if Addr(s.top, s.bits) == 0 then
        At(s, t, Idle, [Lin(t, FoundEmpty), Return(t, PopFalse)])
      else
        At(s, t, PopNext(s.top, s.cas), [])
    case PopNext(seen, at) =>
      At(s, t, PopCas(seen, Read(s.next, Addr(seen, s.bits), 0), at), [])
    case PopCas(seen, next, at) =>
      if s.top == seen then
        var n := Addr(seen, s.bits);
        At(Won(s, t, Pack(next, Count(seen, s.bits) + 1, s.bits),
               if s.chain == [] then [] else s.chain[1..]), t,
           PopCount(n), [Lin(t, Popped(Read(s.data, n, 0)))])
      else
        At(s, t, PopLoad, []).(fails := Bump(s.fails, t))
    case PopCount(n) =>
      At(s, t, PopData(n), []).(size := s.size - 1)
    case PopData(n) =>
      At(s, t, PopFree(n, Read(s.data, n, 0)), [])
    case PopFree(n, out) =>
      At(s, t, Idle, [Return(t, PopTrue(out))]).(pool := s.pool + {n})
  }

  function Apply(s: State, m: Move): State
    requires Enabled(s, m)
  {
    match m.c
    case CallPush(v) => At(s, m.t, PushAlloc(v), [Call(m.t, PushOp(v))])
    case CallPop => At(s, m.t, PopLoad, [Call(m.t, PopOp)])
    case Take(n) => At(s, m.t, PushData(s.pcs[m.t].v, n), []).(pool := s.pool - {n})
    case NoMemory => At(s, m.t, Idle, [Return(m.t, PushResult(false))])
    case Go => Access(s, m.t)
    case Scribble(n, link, v) => s.(next := s.next[n := link], data := s.data[n := v])
  }

  /** The assumption about the tag: when a thread's CAS finds the word that the
      thread loaded from _top_, fewer than a full period of CASes have succeeded
      since. A CAS that fails may be as late as it likes. */
  predicate InWindow(s: State, t: nat) {
    t < |s.pcs| && (s.pcs[t].PushCas? || s.pcs[t].PopCas?) && s.top == s.pcs[t].seen ==>
      s.cas - s.pcs[t].at < Period(s.bits)
  }

  // A state with nothing on the stack, every node in the pool and n threads.
  predicate Initial(s: State, n: nat) {
    && 1 <= s.bits <= WORD_BITS
    && s.top == 0 && s.size == 0 && s.cas == 0 && s.chain == [] && s.trace == []
    && s.next.Keys == s.data.Keys == s.pool
    && (forall a <- s.pool :: 0 < a < Pow2(s.bits))
    && s.pcs == seq(n, i => Idle)
    && s.wins == s.fails == seq(n, i => 0)
  }

  predicate IsRun(s: State, run: seq<Move>)
    decreases |run|
  {
    run == [] || (Enabled(s, run[0]) && IsRun(Apply(s, run[0]), run[1..]))
  }

  function Final(s: State, run: seq<Move>): State
    requires IsRun(s, run)
    decreases |run|
  {
    if run == [] then s else Final(Apply(s, run[0]), run[1..])
  }

  // A run in which every CAS is made inside the window.
  predicate IsWindowedRun(s: State, run: seq<Move>)
    decreases |run|
  {
    run == [] ||
    (Enabled(s, run[0]) && InWindow(s, run[0].t) && IsWindowedRun(Apply(s, run[0]), run[1..]))
  }
}
