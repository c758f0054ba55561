/** States in which the queue breaks its promise: two Dequeues that give up while a
    finished Enqueue's value is inside, a finished Enqueue whose value is not, and a
    comparison that is fooled in a long queue. */
module QueueFailures {
  import opened Wrappers
  import opened Bits
  import opened StackMachine
  import opened StackTrace
  import opened QueueMachine
  import opened QueueInvariant
  import opened QueueTheorems
  import opened QueueSolo

  lemma OneQMove(s: QState, m: Move)
    requires QReachable(s, 2) && CleanMove(s, m)
    ensures QReachable(QApply(s, m), 2)
  {
    hide *;
    OneCleanMove(s, 2, m);
  }

  // ---------------------------------------- whole operations of one thread

  // The call, the node, its value and its null link.
  lemma Prepare(s: QState, t: nat, n: nat, v: Value) returns (s': QState)
    requires QReachable(s, 2) && t < |s.pcs| && s.pcs[t].QIdle? && n in s.pool
    ensures QReachable(s', 2)
    ensures s' == s.(pcs := s.pcs[t := EnqLoad(n)], pool := s.pool - {n}, data := s.data[n := v], next := s.next[n := 0],
                     place := s.place[n := Own(t)], trace := s.trace + [Call(t, PushOp(v))])
  {
    hide *;
    var run;
    run, s' := ReadyNode(s, 2, t, n, v);
  }

  // The load of _tail_ and of the link behind it.
  lemma Look(s: QState, t: nat, n: nat) returns (s': QState)
    requires QReachable(s, 2) && t < |s.pcs| && s.pcs[t] == EnqLoad(n) && s.tails == |s.line| - 1
    ensures QReachable(s', 2) && s' == s.(pcs := s.pcs[t := EnqLink(n, s.tail, s.tails)])
  {
    hide QReachable, Addr, Pack, Count, Period;
    EndsSay(s, 2);
    OneQMove(s, Move(t, Go)); s' := EnqStep(s, t);
    OneQMove(s', Move(t, Go)); s' := EnqStep(s', t);
    assert s'.pcs == s.pcs[t := EnqLink(n, s.tail, s.tails)] && s.trace + [] == s.trace;
  }

  // The node is linked to the last.
  lemma Link(s: QState, t: nat, n: nat, v: Value) returns (s': QState)
    requires QReachable(s, 2) && t < |s.pcs| && s.tails == |s.line| - 1
    requires s.pcs[t] == EnqLink(n, s.tail, s.tails) && Read(s.data, n, 0) == v
    ensures QReachable(s', 2)
    ensures s' == s.(pcs := s.pcs[t := EnqCheck(n, s.tail, s.tails, v)], next := s.next[s.line[s.tails] := n],
                     line := s.line + [n], vals := s.vals + [v], place := s.place[n := InLine],
                     trace := s.trace + [Lin(t, Pushed(v))])
  {
    hide QReachable, Addr, Pack, Count, Period;
    EndsSay(s, 2);
    OneQMove(s, Move(t, Go)); s' := EnqStep(s, t);
  }

  // _tail_ follows.
  lemma Swing(s: QState, t: nat, n: nat, v: Value) returns (s': QState)
    requires QReachable(s, 2) && t < |s.pcs| && s.pcs[t] == EnqCheck(n, s.tail, s.tails, v)
    ensures QReachable(s', 2)
    ensures s' == s.(pcs := s.pcs[t := EnqCount(v)], tail := s'.tail, tails := s.tails + 1)
  {
    hide QReachable, Addr, Pack, Count, Period;
    HasPeriod(s.bits);
    OneQMove(s, Move(t, Go)); s' := EnqStep(s, t);
    OneQMove(s', Move(t, Go)); s' := EnqStep(s', t);
    assert s'.pcs == s.pcs[t := EnqCount(v)] && s.trace + [] == s.trace;
  }

  // And _size_.
  lemma Finish(s: QState, t: nat, n: nat, v: Value) returns (s': QState)
    requires QReachable(s, 2) && t < |s.pcs| && s.pcs[t] == EnqCheck(n, s.tail, s.tails, v)
    ensures QReachable(s', 2)
    ensures s' == s.(pcs := s.pcs[t := QIdle], tail := s'.tail, tails := s.tails + 1, size := s.size + 1,
                     trace := s.trace + [Return(t, PushResult(true))])
  {
    hide QReachable, Addr, Pack, Count, Period;
    s' := Swing(s, t, n, v);
    OneQMove(s', Move(t, Go)); s' := EnqStep(s', t);
    assert s'.pcs == s.pcs[t := QIdle];
  }

  // What the parts of the state are after a whole operation.
  predicate Became(s: QState, s': QState, line: seq<nat>, vals: seq<Value>, size: int, pool: set<nat>) {
    s'.bits == s.bits && s'.line == line && s'.vals == vals && s'.size == size && s'.pool == pool && s'.pcs == s.pcs
  }

  lemma EnqueueAll(s: QState, t: nat, n: nat, v: Value) returns (s': QState)
    requires QReachable(s, 2) && t < |s.pcs| && s.pcs[t].QIdle? && n in s.pool && s.tails == |s.line| - 1
    ensures QReachable(s', 2) && Became(s, s', s.line + [n], s.vals + [v], s.size + 1, s.pool - {n})
    ensures s'.heads == s.heads && s'.tails == s.tails + 1 && s'.data == s.data[n := v]
    ensures s'.trace == s.trace + [Call(t, PushOp(v))] + [Lin(t, Pushed(v))] + [Return(t, PushResult(true))]
  {
    hide QReachable;
    s' := Prepare(s, t, n, v);
    s' := Look(s', t, n);
    s' := Link(s', t, n, v);
    s' := Finish(s', t, n, v);
    assert s'.pcs == s.pcs;
  }

  // A Dequeue that is not turned away, up to its load of _head_.
  lemma Enter(s: QState, t: nat) returns (s': QState)
    requires QReachable(s, 2) && t < |s.pcs| && s.pcs[t].QIdle? && s.size > 0
    ensures QReachable(s', 2)
    ensures s' == s.(pcs := s.pcs[t := DeqNext(s.head, s.heads)], trace := s.trace + [Call(t, PopOp)])
  {
    hide QReachable, Addr, Pack, Count;
    OneQMove(s, Move(t, CallPop)); s' := QApply(s, Move(t, CallPop));
    OneQMove(s', Move(t, Go)); s' := DeqStep(s', t);
    OneQMove(s', Move(t, Go)); s' := DeqStep(s', t);
    assert s.trace + [Call(t, PopOp)] + [] == s.trace + [Call(t, PopOp)];
    assert s'.pcs == s.pcs[t := DeqNext(s.head, s.heads)];
  }

  // From there to its CAS, with _tail_ ahead.
  lemma Ready(s: QState, t: nat) returns (s': QState)
    requires QReachable(s, 2) && t < |s.pcs| && s.heads < s.tails
    requires s.pcs[t] == DeqNext(s.head, s.heads)
    ensures QReachable(s', 2) && |s.vals| == |s.line| > s.heads + 1
    ensures s' == s.(pcs := s.pcs[t := DeqCas(s.head, s.line[s.heads + 1], s.vals[s.heads + 1], s.heads)])
  {
    hide QReachable, Addr, Pack, Count, Period;
    EndsSay(s, 2);
    OneQMove(s, Move(t, Go)); s' := DeqStep(s, t);
    OneQMove(s', Move(t, Go)); s' := DeqStep(s', t);
    assert s'.pcs == s.pcs[t := DeqData(s.head, s.line[s.heads + 1], s.heads)] && s.trace + [] == s.trace;
    s' := Copy(s', t, s.line[s.heads + 1]);
    assert s'.pcs == s.pcs[t := s'.pcs[t]];
  }

  lemma Copy(s: QState, t: nat, n: nat) returns (s': QState)
    requires QReachable(s, 2) && t < |s.pcs| && s.pcs[t] == DeqData(s.head, n, s.heads)
    ensures QReachable(s', 2)
    ensures s' == s.(pcs := s.pcs[t := DeqCas(s.head, n, Read(s.data, n, 0), s.heads)])
  {
    hide QReachable, Addr, Pack, Count, Period;
    OneQMove(s, Move(t, Go)); s' := DeqStep(s, t);
    assert s.trace + [] == s.trace;
  }

  lemma Leave(s: QState, t: nat) returns (s': QState)
    requires QReachable(s, 2) && t < |s.pcs| && s.heads < s.tails && |s.vals| == |s.line| > s.heads + 1
    requires s.pcs[t] == DeqCas(s.head, s.line[s.heads + 1], s.vals[s.heads + 1], s.heads)
    ensures QReachable(s', 2) && s'.bits == s.bits && s'.line == s.line && s'.vals == s.vals && s'.size == s.size - 1
    ensures s'.pool == s.pool + {s.line[s.heads]} && s'.pcs == s.pcs[t := QIdle]
    ensures s'.heads == s.heads + 1 && s'.tails == s.tails && s'.data == s.data && s.trace <= s'.trace
  {
    hide QReachable, Addr, Pack, Count, Period;
    EndsSay(s, 2);
    OneQMove(s, Move(t, Go)); s' := DeqStep(s, t);
    s' := GiveBack(s', t, s.line[s.heads], s.vals[s.heads + 1]);
    assert s'.pcs == s.pcs[t := QIdle];
  }

  // _size_ follows, and the old dummy goes back to the pool.
  lemma GiveBack(s: QState, t: nat, n: nat, v: Value) returns (s': QState)
    requires QReachable(s, 2) && t < |s.pcs| && s.pcs[t] == DeqCount(n, v)
    ensures QReachable(s', 2) && s.trace <= s'.trace
    ensures s' == s.(pcs := s.pcs[t := QIdle], size := s.size - 1, pool := s.pool + {n}, place := s.place[n := InPool],
                     trace := s'.trace)
  {
    hide QReachable, Addr, Pack, Count, Period;
    OneQMove(s, Move(t, Go)); s' := DeqStep(s, t);
    OneQMove(s', Move(t, Go)); s' := DeqStep(s', t);
    assert s'.pcs == s.pcs[t := QIdle];
  }

  lemma HasPeriod(bits: nat)
    ensures Period(bits) >= 1
    ensures bits <= WORD_BITS - 2 ==> Period(bits) >= 4
  {
    if bits <= WORD_BITS - 2 {
      assert Pow2(WORD_BITS - bits) == 2 * (2 * Pow2(WORD_BITS - bits - 2));
    }
  }

  lemma DequeueAll(s: QState, t: nat) returns (s': QState)
    requires QReachable(s, 2) && t < |s.pcs| && s.pcs[t].QIdle? && s.size > 0 && s.heads < s.tails
    ensures QReachable(s', 2) && s.heads < |s.line|
    ensures Became(s, s', s.line, s.vals, s.size - 1, s.pool + {s.line[s.heads]})
    ensures s'.heads == s.heads + 1 && s'.tails == s.tails && s'.data == s.data && s.trace <= s'.trace
  {
    hide QReachable, Period;
    s' := Enter(s, t);
    s' := Ready(s', t);
    s' := Leave(s', t);
    assert s'.pcs == s.pcs;
  }

  // ------------------------------------------------------ the empty queue

  // The numbers 1, 2, ..., k.
  function Naturals(k: nat): seq<nat> {
    seq(k, i => i + 1)
  }

  // The numbers from a to k.
  function Upto(a: nat, k: nat): set<nat> {
    set x <- Naturals(k) | a <= x
  }

  lemma UptoFirst(a: nat, k: nat)
    requires 1 <= a <= k
    ensures a in Upto(a, k) && Upto(a, k) - {a} == Upto(a + 1, k)
  {
    assert Naturals(k)[a - 1] == a;
  }

  // Nodes 1 to k; node 1 is the dummy.
  lemma Nodes(bits: nat, k: nat) returns (s: QState)
    requires 2 <= bits <= WORD_BITS - 2 && 1 <= k < Pow2(bits)
    ensures QReachable(s, 2) && s.bits == bits && s.pcs == [QIdle, QIdle] && s.pool == Upto(2, k)
    ensures s.line == [1] && s.vals == [0] && s.heads == s.tails == 0 && s.size == 0 && s.trace == []
  {
    hide Pow2;
    UptoFirst(1, k);
    var idle := seq(2, i => QIdle);
    var zero := map a | a in Upto(1, k) :: 0;
    var place := map a | a in zero :: if a == 1 then InLine else InPool;
    s := QState(bits, 1, 1, 0, zero, zero, Upto(2, k), idle, [1], [0], 0, 0, place, []);
    assert OnlyDummy(s, 1);
    assert QInitial(s, 2) && IsCleanRun(s, []) && IsQRun(s, []) && QFinal(s, []) == s;
    assert idle == [QIdle, QIdle];
  }

  lemma ThreeNodes(bits: nat) returns (s: QState)
    requires 2 <= bits <= WORD_BITS - 2
    ensures QReachable(s, 2) && s.bits == bits && s.pcs == [QIdle, QIdle] && s.pool == {2, 3}
    ensures s.line == [1] && s.vals == [0] && s.heads == s.tails == 0 && s.size == 0 && s.trace == []
  {
    hide QReachable;
    assert Pow2(bits) >= 4 by { assert Pow2(bits) == 2 * (2 * Pow2(bits - 2)); }
    s := Nodes(bits, 3);
    assert Naturals(3) == [1, 2, 3];
    assert Upto(2, 3) == {2, 3};
  }

  /** A Dequeue can be turned away with a finished Enqueue's value inside. Thread 0
      has linked its node and not counted it; thread 1 has enqueued 2, and dequeued
      once, which gave it thread 0's value and brought _size_ down to nothing. */
  lemma TurnedAway(bits: nat) returns (s: QState)
    requires 2 <= bits <= WORD_BITS - 2
    ensures QReachable(s, 2) && s.bits == bits && |s.pcs| == 2 && s.pcs[1].DeqSize? && s.size == 0
    ensures Contents(s) == [2] && Return(1, PushResult(true)) in s.trace && Lin(1, Pushed(2)) in s.trace
  {
    hide QReachable, Period, QApply;
    HasPeriod(bits);
    s := ThreeNodes(bits);
    s := Uncounted(s);
    s := EnqueueAll(s, 1, 3, 2);
    ghost var done := s.trace;
    assert Return(1, PushResult(true)) in done && Lin(1, Pushed(2)) in done;
    s := DequeueAll(s, 1);
    s := CallOnce(s);
    assert done <= s.trace && [0, 1, 2][2..] == [2];
  }

  // Thread 0 has linked node 2 and moved _tail_, and is about to count it.
  lemma Uncounted(s: QState) returns (s': QState)
    requires QReachable(s, 2) && s.pcs == [QIdle, QIdle] && s.pool == {2, 3}
    requires s.line == [1] && s.vals == [0] && s.heads == s.tails == 0 && s.size == 0
    ensures QReachable(s', 2) && s'.bits == s.bits && s'.pcs == [EnqCount(1), QIdle] && s'.pool == {3}
    ensures s'.line == [1, 2] && s'.vals == [0, 1] && s'.heads == 0 && s'.tails == 1 && s'.size == 0
  {
    hide QReachable, Period, Addr, Pack, Count, EnqStep;
    s' := Prepare(s, 0, 2, 1);
    s' := Look(s', 0, 2);
    s' := Link(s', 0, 2, 1);
    s' := Swing(s', 0, 2, 1);
  }

  lemma CallOnce(s: QState) returns (s': QState)
    requires QReachable(s, 2) && |s.pcs| == 2 && s.pcs[1].QIdle?
    ensures QReachable(s', 2) && s' == s.(pcs := s.pcs[1 := DeqSize], trace := s.trace + [Call(1, PopOp)])
  {
    hide QReachable;
    OneQMove(s, Move(1, CallPop)); s' := QApply(s, Move(1, CallPop));
  }

  // ------------------------------------------ a link that has become null

  /** A Dequeue can give up on a null link with a finished Enqueue's value inside.
      Thread 0 has loaded _head_; thread 1 has dequeued that node, got it back from the
      pool for its next Enqueue, and set its link to null. The value 9 is inside. */
  lemma GivesUpWrongly(bits: nat) returns (s: QState)
    requires 2 <= bits <= WORD_BITS - 2
    ensures QReachable(s, 2) && s.bits == bits && |s.pcs| == 2 && s.pcs[0].DeqNext? && QInWindow(s, 0)
    ensures Contents(s) == [9] && s.size == 1 && Return(1, PushResult(true)) in s.trace && Lin(1, Pushed(9)) in s.trace
    ensures DeqStep(s, 0).trace == s.trace + [Lin(0, FoundEmpty), Return(0, PopFalse)]
  {
    hide QReachable, Period, QApply, DeqStep, Addr;
    s := TwoInside(bits);
    ghost var done := s.trace;
    s := Enter(s, 0);
    s := DequeueAll(s, 1);
    s := Prepare(s, 1, 1, 7);
    assert done <= s.trace && [0, 8, 9][2..] == [9];
    GivesUp(s);
  }

  lemma TwoInside(bits: nat) returns (s: QState)
    requires 2 <= bits <= WORD_BITS - 2
    ensures QReachable(s, 2) && s.bits == bits && s.pcs == [QIdle, QIdle] && s.pool == {}
    ensures s.line == [1, 2, 3] && s.vals == [0, 8, 9] && s.heads == 0 && s.tails == 2 && s.size == 2
    ensures Return(1, PushResult(true)) in s.trace && Lin(1, Pushed(9)) in s.trace && Addr(s.head, bits) == 1
  {
    hide QReachable, Addr;
    s := ThreeNodes(bits);
    s := EnqueueAll(s, 1, 2, 8);
    s := EnqueueAll(s, 1, 3, 9);
    EndsSay(s, 2);
  }

  lemma GivesUp(s: QState)
    requires |s.pcs| == 2 && s.pcs[0].DeqNext? && Read(s.next, Addr(s.pcs[0].seen, s.bits), 0) == 0
    ensures DeqStep(s, 0).trace == s.trace + [Lin(0, FoundEmpty), Return(0, PopFalse)]
  {
    hide Addr;
  }

  // ----------------------------------------------- a comparison that is fooled

  // Nodes 2 to j + 1 enqueued by thread 1.
  lemma {:induction false} Fill(bits: nat, k: nat, j: nat) returns (s: QState)
    requires 2 <= bits <= WORD_BITS - 2 && j < k < Pow2(bits)
    ensures QReachable(s, 2) && s.bits == bits && s.pcs == [QIdle, QIdle] && s.pool == Upto(j + 2, k)
    ensures s.line == Naturals(j + 1) && s.heads == 0 && s.tails == j && s.size == j
    decreases j
  {
    hide QReachable, Pow2;
    if j == 0 {
      s := Nodes(bits, k);
    } else {
      s := Fill(bits, k, j - 1);
      UptoFirst(j + 1, k);
      s := EnqueueAll(s, 1, j + 1, 0);
      assert Naturals(j) + [j + 1] == Naturals(j + 1);
    }
  }

  // Thread 0 has loaded _head_ and read the link behind it.
  lemma LookBehind(s: QState) returns (s': QState)
    requires QReachable(s, 2) && |s.pcs| == 2 && s.pcs[0] == DeqNext(s.head, s.heads) && s.heads < |s.line| - 1
    ensures QReachable(s', 2) && s' == s.(pcs := s.pcs[0 := DeqTail(s.head, s.line[s.heads + 1], s.heads)])
  {
    hide QReachable, Addr, Pack, Count, Period;
    EndsSay(s, 2);
    OneQMove(s, Move(0, Go)); s' := DeqStep(s, 0);
    assert s.trace + [] == s.trace;
  }

  lemma {:induction false} PeriodFits(m: nat, n: nat)
    requires m < n
    ensures Pow2(m) < Pow2(n)
    decreases n
  {
    if m + 1 < n {
      PeriodFits(m, n - 1);
    }
  }

  /** A comparison that is fooled within fewer moves of _head_ than a period: the queue
      holds one value less than a period when thread 0 loads _head_ (in s0). While
      thread 0 waits thread 1 dequeues twice and enqueues once, and node 1, the dummy
      that thread 0 saw, is last again with the same count in _tail_ (in s). Thread 0
      finds _tail_ equal to what it saw of _head_, and its next two moves make _tail_
      name a node that is in the pool. The address width of the source, 47, is one
      for which this happens. */
  lemma Lapped(bits: nat) returns (s0: QState, s: QState)
    requires WORD_BITS / 2 < bits <= WORD_BITS - 2
    ensures QReachable(s0, 2) && s0.bits == bits && |s0.pcs| == 2 && s0.pcs[0].DeqTail? && s0.pcs[0].seen == s0.head
    ensures QReachable(s, 2) && s.bits == bits && |s.pcs| == 2 && s.pcs[0] == s0.pcs[0]
    ensures s0.tails == Period(bits) - 1 && s.heads == s0.heads + 2 && s.tails == s0.tails + 1
    ensures s.tail == s.pcs[0].seen && !QInWindow(s, 0)
    ensures var s' := DeqStep(DeqStep(s, 0), 0);
            s'.tail != s.tail && Addr(s'.tail, bits) in s'.pool
  {
    hide QReachable, Period, Pow2, Addr;
    s0 := FullLap(bits);
    s := Overtook(s0);
    Fooled(s);
  }

  lemma FullLap(bits: nat) returns (s: QState)
    requires WORD_BITS / 2 < bits <= WORD_BITS - 2
    ensures var p := Period(bits);
            && p >= 4 && QReachable(s, 2) && s.bits == bits && |s.pcs| == 2 && s.pcs[1].QIdle?
            && s.pcs[0] == DeqTail(s.head, 2, 0) && s.line == Naturals(p) && s.pool == {}
            && s.heads == 0 && s.tails == p - 1 && s.size == p - 1
  {
    hide QReachable;
    HasPeriod(bits);
    PeriodFits(WORD_BITS - bits, bits);
    hide Pow2, Addr;
    var p := Period(bits);
    s := Fill(bits, p, p - 1);
    assert Upto(p + 1, p) == {};
    s := Enter(s, 0);
    s := LookBehind(s);
  }

  lemma Overtook(s0: QState) returns (s: QState)
    requires QReachable(s0, 2) && |s0.pcs| == 2 && s0.pcs[1].QIdle? && s0.pcs[0].DeqTail?
    requires s0.heads == 0 && 3 <= s0.tails == s0.size == |s0.line| - 1 && s0.line == Naturals(s0.tails + 1) && s0.pool == {}
    ensures QReachable(s, 2) && s.bits == s0.bits && s.pcs == s0.pcs && s.line == s0.line + [1] && s.pool == {2}
    ensures s.heads == 2 && s.tails == s0.tails + 1
  {
    hide QReachable;
    s := DequeueAll(s0, 1);
    s := DequeueAll(s, 1);
    s := EnqueueAll(s, 1, 1, 0);
  }

  lemma Fooled(s: QState)
    requires QReachable(s, 2) && |s.pcs| == 2 && s.pcs[0].DeqTail? && s.pcs[0].at == 0 && s.pcs[0].next == 2
    requires s.tails == Period(s.bits) == |s.line| - 1 && s.line[0] == 1 && s.line[s.tails] == 1 && s.pool == {2}
    requires 2 <= s.bits <= WORD_BITS - 2
    ensures s.tail == s.pcs[0].seen && !QInWindow(s, 0)
    ensures var s' := DeqStep(DeqStep(s, 0), 0);
            s'.tail != s.tail && Addr(s'.tail, s.bits) in s'.pool
  {
    hide QReachable, Addr, Period, Pow2;
    SameTag(s);
    TwoMoves(s);
  }

  lemma SameTag(s: QState)
    requires QReachable(s, 2) && |s.pcs| == 2 && s.pcs[0].DeqTail? && s.pcs[0].at == 0
    requires s.tails == Period(s.bits) == |s.line| - 1 && s.line[0] == 1 && s.line[s.tails] == 1
    ensures s.tail == s.pcs[0].seen && Addr(s.tail, s.bits) == 1 && s.tails - 0 >= Period(s.bits)
  {
    hide ThreadOk, QReplay, Addr, Period, Pow2;
    QReachableInv(s, 2);
    SeenWord(s, 0);
    EndsSay(s, 2);
    DivModUnique(Period(s.bits), Period(s.bits), 1, 0);
    DivModUnique(0, Period(s.bits), 0, 0);
    TailWord(s);
    WordsAgree(s.bits, s.tail, s.pcs[0].seen, 1, s.tails, 1, 0);
  }

  lemma TailWord(s: QState)
    requires LineOk(s)
    ensures 1 <= s.bits <= WORD_BITS && Word(s.bits, s.tail, s.line[s.tails], s.tails)
  {
    hide InChain, Carries, Used, Word;
  }

  // The comparison, and the CAS on _tail_.
  lemma TwoMoves(s: QState)
    requires |s.pcs| == 2 && s.pcs[0].DeqTail? && s.pcs[0].next == 2 && s.pool == {2}
    requires s.tail == s.pcs[0].seen && Addr(s.tail, s.bits) == 1 && 2 <= s.bits <= WORD_BITS
    ensures var s' := DeqStep(DeqStep(s, 0), 0);
            s'.tail != s.tail && Addr(s'.tail, s.bits) in s'.pool
  {
    hide Addr, Pow2, Pack, Count;
    NamesTwo(s.tail, s.bits);
    var s1 := DeqStep(s, 0);
    assert s1.pcs[0] == DeqHelp(s.tail, 2, s.pcs[0].at) && s1.tail == s.tail && s1.bits == s.bits && s1.pool == s.pool;
    Helped(s1);
  }

  lemma Helped(s: QState)
    requires |s.pcs| == 2 && s.pcs[0].DeqHelp? && s.pcs[0].seen == s.tail
    ensures var s' := DeqStep(s, 0);
            s'.tail == Pack(s.pcs[0].next, Count(s.tail, s.bits) + 1, s.bits) && s'.pool == s.pool
  {
    hide Addr, Pow2, Pack, Count;
  }

  lemma NamesTwo(w: nat, bits: nat)
    requires 2 <= bits <= WORD_BITS
    ensures Addr(Pack(2, Count(w, bits) + 1, bits), bits) == 2
  {
    assert Pow2(bits) >= 4 by { assert Pow2(bits) == 2 * (2 * Pow2(bits - 2)); }
    hide Addr, Pow2, Pack, Count;
    Unpack(2, Count(w, bits) + 1, bits);
  }

  // -------------------------------------------------- a value that is lost

  // Thread 0 is about to link its node to node 1, which has left the queue and is
  // now the private node of thread 1; the queue is empty.
  predicate Astray(s: QState) {
    && |s.pcs| == 2 && s.pcs[0].EnqLink? && s.pcs[0].node == 3 && s.pcs[0].at == 0 && s.pcs[1] == EnqLoad(1)
    && Addr(s.pcs[0].seen, s.bits) == 1 && Read(s.next, 1, 0) == 0 && Read(s.data, 3, 0) == 7
    && s.line == [1, 2] && s.vals == [0, 8] && s.heads == s.tails == 1 && s.size == 0
    && Addr(s.head, s.bits) == Addr(s.tail, s.bits) == 2 && Read(s.next, 2, 0) == 0
  }

  lemma GoAstray(bits: nat) returns (s: QState)
    requires 2 <= bits <= WORD_BITS - 2
    ensures QReachable(s, 2) && s.bits == bits && Astray(s) && QInWindow(s, 0)
  {
    hide QReachable, Period, QApply, Addr;
    HasPeriod(bits);
    s := ThreeNodes(bits);
    s := Prepare(s, 0, 3, 7);
    EndsSay(s, 2);
    s := Look(s, 0, 3);
    s := Overtake(s);
  }

  lemma Overtake(s: QState) returns (s': QState)
    requires QReachable(s, 2) && Period(s.bits) >= 4 && |s.pcs| == 2 && s.pcs[1].QIdle? && s.pcs[0].EnqLink?
    requires s.pcs[0].node == 3 && s.pcs[0].at == 0 && Addr(s.pcs[0].seen, s.bits) == 1 && s.pool == {2}
    requires s.line == [1] && s.vals == [0] && s.heads == s.tails == 0 && s.size == 0
    requires Read(s.data, 3, 0) == 7 && 3 in s.data
    ensures QReachable(s', 2) && s'.bits == s.bits && Astray(s') && QInWindow(s', 0)
  {
    hide QReachable, Period, QApply, Addr;
    s' := EnqueueAll(s, 1, 2, 8);
    s' := DequeueAll(s', 1);
    s' := Prepare(s', 1, 1, 9);
    EndsSay(s', 2);
  }

  /** A finished Enqueue's value can be out of the queue. Thread 0's link goes to a
      node that another thread is about to enqueue; its Enqueue returns true, and its
      own Dequeue, with no one else moving, then finds the queue empty. */
  lemma ValueLost(bits: nat) returns (s: QState, run: seq<Move>, s': QState)
    requires 2 <= bits <= WORD_BITS - 2
    ensures QReachable(s, 2) && s.bits == bits && QInWindow(s, 0) && Links(s, 0) && !LinksLast(s, 0)
    ensures Goes(s, run, s', 0)
    ensures s'.trace == s.trace + [Lin(0, Pushed(7)), Return(0, PushResult(true))]
                                + [Call(0, PopOp), Lin(0, FoundEmpty), Return(0, PopFalse)]
  {
    hide QReachable, Period, Addr;
    s := GoAstray(bits);
    run, s' := Lose(s);
  }

  lemma Lose(s: QState) returns (run: seq<Move>, s': QState)
    requires Astray(s)
    ensures Goes(s, run, s', 0)
    ensures s'.trace == s.trace + [Lin(0, Pushed(7)), Return(0, PushResult(true))]
                                + [Call(0, PopOp), Lin(0, FoundEmpty), Return(0, PopFalse)]
  {
    hide *;
    run, s' := LinkAstray(s);
    run, s' := FindNothing(s, run, s');
  }

  // The Enqueue ends: _tail_ is not what thread 0 saw, so it leaves it alone.
  lemma LinkAstray(s: QState) returns (run: seq<Move>, s': QState)
    requires Astray(s)
    ensures Goes(s, run, s', 0)
    ensures |s'.pcs| == 2 && s'.pcs[0].QIdle? && s'.size == 1 && s'.head == s.head && s'.bits == s.bits
    ensures Addr(s'.head, s'.bits) == 2 && Read(s'.next, 2, 0) == 0
    ensures s'.trace == s.trace + [Lin(0, Pushed(7)), Return(0, PushResult(true))]
  {
    hide Addr, Pack, Count, Goes;
    run, s' := [], s;
    var go := Move(0, Go);
    GoesNowhere(s, 0);
    GoesOn(s, run, s', go); run, s' := run + [go], EnqStep(s', 0);
    GoesOn(s, run, s', go); run, s' := run + [go], EnqStep(s', 0);
    GoesOn(s, run, s', go); run, s' := run + [go], EnqStep(s', 0);
  }

  // The Dequeue looks at _head_, and there is no link behind it.
  lemma FindNothing(s0: QState, run0: seq<Move>, s: QState) returns (run: seq<Move>, s': QState)
    requires Goes(s0, run0, s, 0) && |s.pcs| == 2 && s.pcs[0].QIdle? && s.size == 1
    requires Addr(s.head, s.bits) == 2 && Read(s.next, 2, 0) == 0
    ensures Goes(s0, run, s', 0)
    ensures s'.trace == s.trace + [Call(0, PopOp), Lin(0, FoundEmpty), Return(0, PopFalse)]
  {
    hide Addr, Pack, Count, Goes;
    run, s' := run0, s;
    var call, go := Move(0, CallPop), Move(0, Go);
    GoesOn(s0, run, s', call); run, s' := run + [call], QApply(s', call);
    GoesOn(s0, run, s', go); run, s' := run + [go], DeqStep(s', 0);
    GoesOn(s0, run, s', go); run, s' := run + [go], DeqStep(s', 0);
    GoesOn(s0, run, s', go); run, s' := run + [go], DeqStep(s', 0);
  }
}
