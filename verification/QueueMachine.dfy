/** The lock-free queue as a step machine: any number of threads, one access to
    shared memory per step, every interleaving.

    _head_ and _tail_ are tagged words like the stack's top; the links are not
    tagged. Traces are written as for the stack: a push is an Enqueue, a pop a
    Dequeue, and FoundEmpty a Dequeue that gives up. */
module QueueMachine {
  import opened Bits
  import opened StackMachine

  /** Where a thread stands. _at_ records how often _tail_ (for EnqNext to EnqSwing)
      or _head_ had moved when the thread loaded it; it and the value in EnqCheck,
      EnqSwing and EnqCount are history. */
  datatype QPc =
    | QIdle
    | EnqAlloc(v: Value)
    | EnqData(v: Value, node: nat)
    | EnqNull(node: nat)
    | EnqLoad(node: nat)
    | EnqNext(node: nat, seen: nat, at: nat)
    | EnqLink(node: nat, seen: nat, at: nat)
    | EnqHelp(node: nat, seen: nat, next: nat, at: nat)
    | EnqCheck(node: nat, seen: nat, at: nat, v: Value)
    | EnqSwing(node: nat, seen: nat, at: nat, v: Value)
    | EnqCount(v: Value)
    | DeqSize
    | DeqLoad
    | DeqNext(seen: nat, at: nat)
    | DeqTail(seen: nat, next: nat, at: nat)
    | DeqHelp(seen: nat, next: nat, at: nat)
    | DeqData(seen: nat, next: nat, at: nat)
    | DeqCas(seen: nat, next: nat, v: Value, at: nat)
    | DeqCount(node: nat, v: Value)
    | DeqFree(node: nat, v: Value)

  datatype Place = InPool | InLine | Own(t: nat)

  /** Shared memory and the threads; and history: every node that was ever linked
      in, with its value, in order, how often _head_ and _tail_ have moved (so where
      they are in that line), where each node is, and the trace. */
  datatype QState = QState(
    bits: nat,
    head: nat,
    tail: nat,
    size: int,
    next: map<nat, nat>,
    data: map<nat, Value>,
    pool: set<nat>,
    pcs: seq<QPc>,
    line: seq<nat>,
    vals: seq<Value>,
    heads: nat,
    tails: nat,
    place: map<nat, Place>,
    trace: seq<Action>)

  predicate QEnabled(s: QState, m: Move) {
    && m.t < |s.pcs|
    && match m.c {
         case CallPush(_) => s.pcs[m.t].QIdle?
         case CallPop => s.pcs[m.t].QIdle?
         case Take(n) => s.pcs[m.t].EnqAlloc? && n in s.pool
         case NoMemory => s.pcs[m.t].EnqAlloc? && s.pool == {}
         case Go => !s.pcs[m.t].QIdle? && !s.pcs[m.t].EnqAlloc?
         case Scribble(_, _, _) => false
       }
  }

  // Thread t moves on to pc, leaving acts in the trace.
  function To(s: QState, t: nat, pc: QPc, acts: seq<Action>): QState
    requires t < |s.pcs|
  {
    s.(pcs := s.pcs[t := pc], trace := s.trace + acts)
  }

  // _tail_ moves on to a node, if it is still the word that was seen.
  function Swung(s: QState, seen: nat, node: nat): QState {
    if s.tail == seen
    then s.(tail := Pack(node, Count(seen, s.bits) + 1, s.bits), tails := s.tails + 1)
    else s
  }

  // The thread's next access, while it enqueues.
  function EnqStep(s: QState, t: nat): QState
    requires t < |s.pcs|
  {
    match s.pcs[t]
    case EnqData(v, n) => To(s, t, EnqNull(n), []).(data := s.data[n := v])
    case EnqNull(n) => To(s, t, EnqLoad(n), []).(next := s.next[n := 0])
    case EnqLoad(n) => To(s, t, EnqNext(n, s.tail, s.tails), [])
    case EnqNext(n, seen, at) =>
      var next := Read(s.next, Addr(seen, s.bits), 0);
      To(s, t, if next == 0 then EnqLink(n, seen, at) else EnqHelp(n, seen, next, at), [])
    case EnqLink(n, seen, at) =>
      var last := Addr(seen, s.bits);
      if Read(s.next, last, 0) == 0 then
        var v := Read(s.data, n, 0);
        To(s, t, EnqCheck(n, seen, at, v), [Lin(t, Pushed(v))]).(
          next := s.next[last := n], line := s.line + [n], vals := s.vals + [v], place := s.place[n := InLine])
      else
        To(s, t, EnqLoad(n), [])
    case EnqHelp(n, seen, next, _) => To(Swung(s, seen, next), t, EnqLoad(n), [])
    case EnqCheck(n, seen, at, v) =>
      To(s, t, if s.tail == seen then EnqSwing(n, seen, at, v) else EnqCount(v), [])
    case EnqSwing(n, seen, _, v) => To(Swung(s, seen, n), t, EnqCount(v), [])
    case EnqCount(v) => To(s, t, QIdle, [Return(t, PushResult(true))]).(size := s.size + 1)
    case _ => s
  }

  // And while it dequeues.
  function DeqStep(s: QState, t: nat): QState
    requires t < |s.pcs|
  {
    match s.pcs[t]
    case DeqSize =>
      if s.size <= 0 then To(s, t, QIdle, [Lin(t, FoundEmpty), Return(t, PopFalse)])
      else To(s, t, DeqLoad, [])
    case DeqLoad => To(s, t, DeqNext(s.head, s.heads), [])
    case DeqNext(seen, at) =>
      var next := Read(s.next, Addr(seen, s.bits), 0);
      if next == 0 then To(s, t, QIdle, [Lin(t, FoundEmpty), Return(t, PopFalse)])
      else To(s, t, DeqTail(seen, next, at), [])
    case DeqTail(seen, next, at) =>
      To(s, t, if s.tail == seen then DeqHelp(seen, next, at) else DeqData(seen, next, at), [])
    case DeqHelp(seen, next, at) => To(Swung(s, seen, next), t, DeqData(seen, next, at), [])
    case DeqData(seen, next, at) => To(s, t, DeqCas(seen, next, Read(s.data, next, 0), at), [])
    case DeqCas(seen, next, v, _) =>
      var n := Addr(seen, s.bits);
      if s.head == seen then
        To(s, t, DeqCount(n, v), [Lin(t, Popped(v))]).(
          head := Pack(next, Count(seen, s.bits) + 1, s.bits), heads := s.heads + 1, place := s.place[n := Own(t)])
      else
        To(s, t, DeqLoad, [])
    case DeqCount(n, v) => To(s, t, DeqFree(n, v), []).(size := s.size - 1)
    case DeqFree(n, v) =>
      To(s, t, QIdle, [Return(t, PopTrue(v))]).(pool := s.pool + {n}, place := s.place[n := InPool])
    case _ => s
  }

  predicate Enqueuing(pc: QPc) {
    pc.EnqAlloc? || pc.EnqData? || pc.EnqNull? || pc.EnqLoad? || pc.EnqNext? || pc.EnqLink? || pc.EnqHelp? ||
    pc.EnqCheck? || pc.EnqSwing? || pc.EnqCount?
  }

  function QApply(s: QState, m: Move): QState
    requires QEnabled(s, m)
  {
    match m.c
    case CallPush(v) => To(s, m.t, EnqAlloc(v), [Call(m.t, PushOp(v))])
    case CallPop => To(s, m.t, DeqSize, [Call(m.t, PopOp)])
    case Take(n) =>
      To(s, m.t, EnqData(s.pcs[m.t].v, n), []).(pool := s.pool - {n}, place := s.place[n := Own(m.t)])
    case NoMemory => To(s, m.t, QIdle, [Return(m.t, PushResult(false))])
    case _ => if Enqueuing(s.pcs[m.t]) then EnqStep(s, m.t) else DeqStep(s, m.t)
  }

  /** The assumption about the tags: where a thread finds _head_ or _tail_ equal to a
      word it loaded, that one has moved by less than a period since the place the
      word was loaded from. For DeqTail and DeqHelp the word is of _head_ and is
      compared with _tail_. A comparison that comes out unequal may be as late as it
      likes. */
  predicate QInWindow(s: QState, t: nat) {
    t < |s.pcs| ==>
      match s.pcs[t]
      case EnqHelp(_, seen, _, at) => s.tail == seen ==> s.tails - at < Period(s.bits)
      case EnqSwing(_, seen, at, _) => s.tail == seen ==> s.tails - at < Period(s.bits)
      case DeqTail(seen, _, at) => s.tail == seen ==> s.tails - at < Period(s.bits)
      case DeqHelp(seen, _, at) => s.tail == seen ==> s.tails - at < Period(s.bits)
      case DeqCas(seen, _, _, at) => s.head == seen ==> s.heads - at < Period(s.bits)
      case _ => true
  }

  // Thread t is about to link its node, and the CAS will succeed.
  predicate Links(s: QState, t: nat) {
    t < |s.pcs| && s.pcs[t].EnqLink? && Read(s.next, Addr(s.pcs[t].seen, s.bits), 0) == 0
  }

  /** What the untagged CAS on a link does not see to: it succeeds only on the last
      node of the line. */
  predicate LinksLast(s: QState, t: nat) {
    Links(s, t) ==> s.line != [] && Addr(s.pcs[t].seen, s.bits) == s.line[|s.line| - 1]
  }

  predicate OnlyDummy(s: QState, d: nat) {
    && d in s.next && s.next[d] == 0 && s.head == s.tail == d && s.pool == s.next.Keys - {d}
    && s.place == (map a | a in s.next :: if a == d then InLine else InPool)
  }

  // One node, the dummy, in the line, and all others in the pool.
  predicate QInitial(s: QState, n: nat) {
    && 1 <= s.bits <= WORD_BITS
    && s.next.Keys == s.data.Keys && |s.line| == 1 && OnlyDummy(s, s.line[0])
    && s.vals == [0] && s.heads == s.tails == 0 && s.size == 0 && s.trace == []
    && (forall a <- s.next.Keys :: 0 < a < Pow2(s.bits))
    && s.pcs == seq(n, i => QIdle)
  }

  predicate IsQRun(s: QState, run: seq<Move>)
    decreases |run|
  {
    run == [] || (QEnabled(s, run[0]) && IsQRun(QApply(s, run[0]), run[1..]))
  }

  function QFinal(s: QState, run: seq<Move>): QState
    requires IsQRun(s, run)
    decreases |run|
  {
    if run == [] then s else QFinal(QApply(s, run[0]), run[1..])
  }

  // A run inside the window in which every link goes to the last node.
  predicate IsCleanRun(s: QState, run: seq<Move>)
    decreases |run|
  {
    run == [] ||
    (QEnabled(s, run[0]) && QInWindow(s, run[0].t) && (run[0].c.Go? ==> LinksLast(s, run[0].t)) &&
     IsCleanRun(QApply(s, run[0]), run[1..]))
  }
}
