/** Which steps of the queue's code return false, and what an operation comes to when
    the other threads, wherever they stand, do not move meanwhile. */
module QueueSolo {
  import opened Wrappers
  import opened Bits
  import opened StackMachine
  import opened StackTrace
  import opened QueueMachine
  import opened QueueInvariant
  import opened QueueTheorems

  // What a move leaves in the trace.
  function Acts(s: QState, m: Move): seq<Action>
    requires QEnabled(s, m)
  {
    var s' := QApply(s, m);
    if |s.trace| <= |s'.trace| then s'.trace[|s.trace|..] else []
  }

  /** A Dequeue returns false at two places and for these reasons only: _size_ is not
      positive where it is read, or the link behind the head it saw is null where that
      is read. An Enqueue returns false only for want of a node. */
  lemma FalseReturns(s: QState, m: Move)
    requires QEnabled(s, m)
    ensures Return(m.t, PopFalse) in Acts(s, m) <==>
            m.c.Go? &&
            ((s.pcs[m.t].DeqSize? && s.size <= 0) ||
             (s.pcs[m.t].DeqNext? && Read(s.next, Addr(s.pcs[m.t].seen, s.bits), 0) == 0))
    ensures Return(m.t, PushResult(false)) in Acts(s, m) <==> m.c.NoMemory?
    ensures m.c.NoMemory? ==> s.pool == {}
  {
    hide EnqStep, DeqStep, Addr;
    if m.c.Go? {
      if Enqueuing(s.pcs[m.t]) {
        EnqLeaves(s, m.t);
      } else {
        DeqLeaves(s, m.t);
      }
    }
  }

  lemma EnqLeaves(s: QState, t: nat)
    requires t < |s.pcs| && Enqueuing(s.pcs[t])
    ensures s.trace <= EnqStep(s, t).trace
    ensures var acts := EnqStep(s, t).trace[|s.trace|..];
            Return(t, PopFalse) !in acts && Return(t, PushResult(false)) !in acts
  {
    hide Addr, Pack, Count, Read;
    match s.pcs[t] {
      case EnqLink(_, _, _) => if Links(s, t) {} else {}
      case EnqHelp(_, seen, _, _) => if s.tail == seen {} else {}
      case EnqSwing(_, seen, _, _) => if s.tail == seen {} else {}
      case EnqNext(_, _, _) =>
      case EnqCount(_) =>
      case _ =>
    }
  }

  lemma DeqLeaves(s: QState, t: nat)
    requires t < |s.pcs| && !Enqueuing(s.pcs[t])
    ensures s.trace <= DeqStep(s, t).trace
    ensures var acts := DeqStep(s, t).trace[|s.trace|..];
            && Return(t, PushResult(false)) !in acts
            && (Return(t, PopFalse) in acts <==>
                (s.pcs[t].DeqSize? && s.size <= 0) ||
                (s.pcs[t].DeqNext? && Read(s.next, Addr(s.pcs[t].seen, s.bits), 0) == 0))
  {
    hide Addr, Pack, Count, Read;
    match s.pcs[t] {
      case DeqSize => if s.size <= 0 { GaveUp(s.trace, t); } else {}
      case DeqNext(seen, _) => if Read(s.next, Addr(seen, s.bits), 0) == 0 { GaveUp(s.trace, t); } else {}
      case DeqHelp(seen, _, _) => if s.tail == seen {} else {}
      case DeqCas(seen, _, _, _) => if s.head == seen {} else {}
      case DeqFree(_, _) =>
      case _ =>
    }
  }

  lemma GaveUp(trace: seq<Action>, t: nat)
    ensures (trace + [Lin(t, FoundEmpty), Return(t, PopFalse)])[|trace|..] == [Lin(t, FoundEmpty), Return(t, PopFalse)]
    ensures [Lin(t, FoundEmpty), Return(t, PopFalse)][1] == Return(t, PopFalse)
  {
  }

  // ----------------------------------------------------- runs of one thread

  // The run leads from s to s', and only thread t moves in it.
  ghost predicate Goes(s: QState, run: seq<Move>, s': QState, t: nat) {
    IsQRun(s, run) && QFinal(s, run) == s' && forall m <- run :: m.t == t
  }

  lemma {:induction false} GoesOn(s: QState, run: seq<Move>, s': QState, m: Move)
    requires Goes(s, run, s', m.t) && QEnabled(s', m)
    ensures Goes(s, run + [m], QApply(s', m), m.t)
    decreases |run|
  {
    hide QApply, QEnabled;
    if run == [] {
      assert run + [m] == [m] && [m][1..] == [];
      assert QFinal(s, [m]) == QFinal(QApply(s, m), [m][1..]);
    } else {
      assert (run + [m])[1..] == run[1..] + [m];
      assert forall x <- run[1..] :: x in run;
      GoesOn(QApply(s, run[0]), run[1..], s', m);
      assert forall x <- run + [m] :: x in run || x == m;
    }
  }

  lemma GoesNowhere(s: QState, t: nat)
    ensures Goes(s, [], s, t)
  {
  }

  lemma {:induction false} QRunSnoc(s: QState, run: seq<Move>, m: Move)
    requires IsCleanRun(s, run) && IsQRun(s, run) && CleanMove(QFinal(s, run), m)
    ensures IsCleanRun(s, run + [m]) && IsQRun(s, run + [m])
    ensures QFinal(s, run + [m]) == QApply(QFinal(s, run), m)
    decreases |run|
  {
    hide QApply, QEnabled, QInWindow, LinksLast;
    if run == [] {
      assert run + [m] == [m] && [m][1..] == [];
    } else {
      assert (run + [m])[1..] == run[1..] + [m];
      QRunSnoc(QApply(s, run[0]), run[1..], m);
    }
  }

  lemma OneCleanMove(s: QState, n: nat, m: Move)
    requires QReachable(s, n) && CleanMove(s, m)
    ensures QReachable(QApply(s, m), n)
  {
    hide QApply, CleanMove, IsQRun, IsCleanRun, QFinal, QInitial;
    var s0: QState, run: seq<Move> :|
      QInitial(s0, n) && IsCleanRun(s0, run) && IsQRun(s0, run) && QFinal(s0, run) == s;
    QRunSnoc(s0, run, m);
  }

  // One more move of the thread.
  lemma More(s0: QState, run: seq<Move>, s: QState, n: nat, m: Move) returns (run': seq<Move>)
    requires Goes(s0, run, s, m.t) && QReachable(s, n) && CleanMove(s, m)
    ensures Goes(s0, run', QApply(s, m), m.t) && QReachable(QApply(s, m), n)
  {
    hide Goes, QReachable, QApply;
    run' := run + [m];
    GoesOn(s0, run, s, m);
    OneCleanMove(s, n, m);
  }

  // What the invariant says of the two ends.
  lemma EndsSay(s: QState, n: nat)
    requires QReachable(s, n)
    ensures |s.pcs| == n && |s.vals| == |s.line| && s.heads <= s.tails < |s.line|
    ensures Addr(s.tail, s.bits) == s.line[s.tails] && Addr(s.head, s.bits) == s.line[s.heads]
    ensures s.tails == |s.line| - 1 ==> Read(s.next, s.line[s.tails], 0) == 0
    ensures s.tails < |s.line| - 1 ==> Read(s.next, s.line[s.tails], 0) == s.line[s.tails + 1] != 0
    ensures s.heads < |s.line| - 1 ==> Read(s.next, s.line[s.heads], 0) == s.line[s.heads + 1] != 0
    ensures s.heads < |s.line| - 1 ==> Read(s.data, s.line[s.heads + 1], 0) == s.vals[s.heads + 1]
    ensures s.head == s.tail <==> s.heads == s.tails
    ensures Period(s.bits) >= 1
  {
    hide QReplay, ThreadOk, Count, Addr, Pow2, InChain, Carries, Used, QLeads, Contents;
    QReachableInv(s, n);
    EndsOf(s);
    LinkSays(s, s.heads);
    LinkSays(s, s.tails);
    if s.heads < |s.line| - 1 {
      ValueAt(s, s.heads + 1);
    }
    EndsEqual(s);
    PeriodPositive(s.bits);
  }

  lemma EndsEqual(s: QState)
    requires LineOk(s)
    ensures s.head == s.tail <==> s.heads == s.tails
  {
    hide InChain, Carries, Used, Word, Count, Addr, Pow2;
    if s.head == s.tail {
      HeadIsTail(s);
    } else if s.heads == s.tails {
      WordsAgree(s.bits, s.head, s.tail, s.line[s.heads], s.heads, s.line[s.tails], s.tails);
    }
  }

  // ------------------------------------------------------------- Dequeue

  // From the load of _head_ to the read of the value, _tail_ helped along if need be.
  lemma ToTheCas(s0: QState, run: seq<Move>, s: QState, n: nat, t: nat) returns (run': seq<Move>, s': QState)
    requires Goes(s0, run, s, t) && QReachable(s, n) && t < |s.pcs| && s.pcs[t].DeqLoad? && s.heads < |s.line| - 1
    ensures Goes(s0, run', s', t) && QReachable(s', n) && |s.vals| == |s.line|
    ensures s' == s.(pcs := s.pcs[t := DeqCas(s.head, s.line[s.heads + 1], s.vals[s.heads + 1], s.heads)],
                     tail := s'.tail, tails := s'.tails)
  {
    hide Goes, QReachable, Addr, Pack, Count, Period;
    EndsSay(s, n);
    var go := Move(t, Go);
    run' := More(s0, run, s, n, go); s' := DeqStep(s, t);
    run' := More(s0, run', s', n, go); s' := DeqStep(s', t);
    assert s'.pcs == s.pcs[t := DeqTail(s.head, s.line[s.heads + 1], s.heads)] && s.trace + [] == s.trace;
    run', s' := PastTail(s0, run', s', n, t);
    run' := More(s0, run', s', n, go);
    var s1 := s';
    s' := DeqStep(s1, t);
    assert s1.trace + [] == s1.trace;
    assert s'.pcs == s.pcs[t := s'.pcs[t]];
  }

  lemma PastTail(s0: QState, run: seq<Move>, s: QState, n: nat, t: nat) returns (run': seq<Move>, s': QState)
    requires Goes(s0, run, s, t) && QReachable(s, n) && t < |s.pcs| && s.pcs[t].DeqTail?
    requires s.pcs[t].seen == s.head && s.pcs[t].at == s.heads
    ensures Goes(s0, run', s', t) && QReachable(s', n)
    ensures s' == s.(pcs := s.pcs[t := DeqData(s.head, s.pcs[t].next, s.heads)], tail := s'.tail, tails := s'.tails)
  {
    hide Goes, QReachable, Addr, Pack, Count, Period;
    EndsSay(s, n);
    var go := Move(t, Go);
    run' := More(s0, run, s, n, go); s' := DeqStep(s, t);
    assert s.trace + [] == s.trace;
    if s'.pcs[t].DeqHelp? {
      run' := More(s0, run', s', n, go); s' := DeqStep(s', t);
    }
    assert s'.pcs == s.pcs[t := DeqData(s.head, s.pcs[t].next, s.heads)];
  }

  // The CAS, _size_, the old dummy back to the pool, and the return.
  lemma Deliver(s0: QState, run: seq<Move>, s: QState, n: nat, t: nat) returns (run': seq<Move>, s': QState)
    requires Goes(s0, run, s, t) && QReachable(s, n) && t < |s.pcs| && s.pcs[t].DeqCas?
    requires s.pcs[t].seen == s.head && s.pcs[t].at == s.heads
    ensures Goes(s0, run', s', t) && QReachable(s', n) && t < |s'.pcs| && s'.pcs == s.pcs[t := QIdle]
    ensures s'.line == s.line && s'.vals == s.vals && s'.heads == s.heads + 1 && s'.tails == s.tails
    ensures s'.size == s.size - 1 && s'.trace == s.trace + [Lin(t, Popped(s.pcs[t].v)), Return(t, PopTrue(s.pcs[t].v))]
    ensures s'.pool == s.pool + {Addr(s.head, s.bits)}
  {
    hide Goes, QReachable, Addr, Pack, Count, Period;
    EndsSay(s, n);
    var go := Move(t, Go);
    run' := More(s0, run, s, n, go); s' := DeqStep(s, t);
    run' := More(s0, run', s', n, go); s' := DeqStep(s', t);
    run' := More(s0, run', s', n, go); s' := DeqStep(s', t);
    assert s'.pcs == s.pcs[t := QIdle];
  }

  // The thread is about to load _head_ on its next move or the one after.
  predicate BeforeLoad(s: QState, t: nat) {
    && t < |s.pcs|
    && (s.pcs[t].DeqLoad? || (s.pcs[t].DeqCas? && s.pcs[t].seen != s.head) || (s.pcs[t].DeqSize? && s.size > 0))
  }

  /** A Dequeue that has not been turned away, or that has lost its CAS, goes round
      and, if no other thread moves, takes the oldest value and returns it. */
  lemma DequeueAlone(s: QState, n: nat, t: nat) returns (run: seq<Move>, s': QState)
    requires QReachable(s, n) && BeforeLoad(s, t) && Contents(s) != []
    ensures Goes(s, run, s', t) && QReachable(s', n) && s'.pcs == s.pcs[t := QIdle]
    ensures s'.trace == s.trace + [Lin(t, Popped(Contents(s)[0])), Return(t, PopTrue(Contents(s)[0]))]
    ensures Contents(s') == Contents(s)[1..] && s'.size == s.size - 1
  {
    hide Goes, QReachable, Addr, Pack, Count, Period;
    EndsSay(s, n);
    GoesNowhere(s, t);
    run, s' := [], s;
    if !s.pcs[t].DeqLoad? {
      run := More(s, run, s, n, Move(t, Go));
      s' := DeqStep(s, t);
      assert s.trace + [] == s.trace;
    }
    assert s' == s.(pcs := s.pcs[t := DeqLoad]);
    run, s' := ToTheCas(s, run, s', n, t);
    run, s' := Deliver(s, run, s', n, t);
    assert s'.pcs == s.pcs[t := QIdle];
  }

  // ------------------------------------------------------------- Enqueue

  // _tail_ is helped along to the last node.
  lemma {:induction false} HelpAlong(s0: QState, run: seq<Move>, s: QState, n: nat, t: nat)
    returns (run': seq<Move>, s': QState)
    requires Goes(s0, run, s, t) && QReachable(s, n) && t < |s.pcs| && s.pcs[t].EnqLoad? && s.tails < |s.line|
    ensures Goes(s0, run', s', t) && QReachable(s', n) && s'.tails == |s.line| - 1
    ensures s' == s.(tail := s'.tail, tails := s'.tails)
    decreases |s.line| - s.tails
  {
    hide Goes, QReachable, Addr, Pack, Count, Period;
    EndsSay(s, n);
    run', s' := run, s;
    if s.tails < |s.line| - 1 {
      run', s' := HelpOnce(s0, run, s, n, t);
      run', s' := HelpAlong(s0, run', s', n, t);
    }
  }

  lemma HelpOnce(s0: QState, run: seq<Move>, s: QState, n: nat, t: nat) returns (run': seq<Move>, s': QState)
    requires Goes(s0, run, s, t) && QReachable(s, n) && t < |s.pcs| && s.pcs[t].EnqLoad? && s.tails < |s.line| - 1
    ensures Goes(s0, run', s', t) && QReachable(s', n)
    ensures s' == s.(tail := s'.tail, tails := s.tails + 1)
  {
    hide Goes, QReachable, Addr, Pack, Count, Period;
    EndsSay(s, n);
    var go := Move(t, Go);
    run' := More(s0, run, s, n, go); s' := EnqStep(s, t);
    run' := More(s0, run', s', n, go); s' := EnqStep(s', t);
    assert s'.pcs[t] == EnqHelp(s.pcs[t].node, s.tail, s.line[s.tails + 1], s.tails);
    run' := More(s0, run', s', n, go); s' := EnqStep(s', t);
    assert s'.pcs == s.pcs && s.trace + [] == s.trace;
  }

  // The link behind the last node.
  lemma LinkBehind(s0: QState, run: seq<Move>, s: QState, n: nat, t: nat) returns (run': seq<Move>, s': QState)
    requires Goes(s0, run, s, t) && QReachable(s, n) && t < |s.pcs| && s.pcs[t].EnqLoad? && s.tails == |s.line| - 1
    ensures var n, v := s.pcs[t].node, Read(s.data, s.pcs[t].node, 0);
            s' == s.(pcs := s.pcs[t := EnqCheck(n, s.tail, s.tails, v)], next := s'.next, line := s.line + [n],
                     vals := s.vals + [v], place := s'.place, trace := s.trace + [Lin(t, Pushed(v))])
    ensures Goes(s0, run', s', t) && QReachable(s', n)
  {
    hide Goes, QReachable, Addr, Pack, Count, Period;
    EndsSay(s, n);
    var go := Move(t, Go);
    run' := More(s0, run, s, n, go); s' := EnqStep(s, t);
    run' := More(s0, run', s', n, go); s' := EnqStep(s', t);
    assert s'.pcs == s.pcs[t := EnqLink(s.pcs[t].node, s.tail, s.tails)] && s.trace + [] == s.trace;
    run' := More(s0, run', s', n, go); s' := EnqStep(s', t);
    assert s'.pcs == s.pcs[t := s'.pcs[t]];
  }

  // _tail_ and _size_ follow, and the return.
  lemma EndEnqueue(s0: QState, run: seq<Move>, s: QState, n: nat, t: nat) returns (run': seq<Move>, s': QState)
    requires Goes(s0, run, s, t) && QReachable(s, n) && t < |s.pcs| && s.pcs[t].EnqCheck?
    requires s.pcs[t].seen == s.tail && s.pcs[t].at == s.tails
    ensures Goes(s0, run', s', t) && QReachable(s', n)
    ensures s' == s.(pcs := s.pcs[t := QIdle], tail := s'.tail, tails := s.tails + 1, size := s.size + 1,
                     trace := s.trace + [Return(t, PushResult(true))])
  {
    hide Goes, QReachable, Addr, Pack, Count, Period;
    EndsSay(s, n);
    var go := Move(t, Go);
    run' := More(s0, run, s, n, go); s' := EnqStep(s, t);
    run' := More(s0, run', s', n, go); s' := EnqStep(s', t);
    run' := More(s0, run', s', n, go); s' := EnqStep(s', t);
    assert s'.pcs == s.pcs[t := QIdle] && s.trace + [] == s.trace;
  }

  /** An Enqueue that has its node ready helps _tail_ along, if no other thread moves,
      appends its value, leaves _tail_ at the last node and returns true. */
  lemma EnqueueAlone(s: QState, n: nat, t: nat) returns (run: seq<Move>, s': QState)
    requires QReachable(s, n) && t < |s.pcs| && s.pcs[t].EnqLoad?
    ensures Goes(s, run, s', t) && QReachable(s', n) && s'.pcs == s.pcs[t := QIdle]
    ensures var v := Read(s.data, s.pcs[t].node, 0);
            && s'.trace == s.trace + [Lin(t, Pushed(v)), Return(t, PushResult(true))]
            && Contents(s') == Contents(s) + [v] && s'.line == s.line + [s.pcs[t].node]
    ensures s'.tails == |s'.line| - 1 && s'.size == s.size + 1
  {
    hide Goes, QReachable, Contents, Addr, Pack, Count, Period;
    GoesNowhere(s, t);
    run, s' := AppendFrom(s, [], s, n, t);
  }

  /** The whole call, given a node: it returns true with its value inside. */
  lemma EnqueueCall(s: QState, n: nat, t: nat, a: nat, v: Value) returns (run: seq<Move>, s': QState)
    requires QReachable(s, n) && t < |s.pcs| && s.pcs[t].QIdle? && a in s.pool
    ensures Goes(s, run, s', t) && QReachable(s', n) && s'.pcs == s.pcs && Contents(s') == Contents(s) + [v]
    ensures s'.trace == s.trace + [Call(t, PushOp(v))] + [Lin(t, Pushed(v)), Return(t, PushResult(true))]
    ensures s'.tails == |s'.line| - 1 && s'.size == s.size + 1
  {
    hide Goes, QReachable, Addr, Pack, Count, Period;
    run, s' := ReadyNode(s, n, t, a, v);
    run, s' := AppendFrom(s, run, s', n, t);
    assert s'.pcs == s.pcs;
  }

  // The call, the node, its value and its null link.
  lemma ReadyNode(s: QState, n: nat, t: nat, a: nat, v: Value) returns (run: seq<Move>, s': QState)
    requires QReachable(s, n) && t < |s.pcs| && s.pcs[t].QIdle? && a in s.pool
    ensures Goes(s, run, s', t) && QReachable(s', n)
    ensures s' == s.(pcs := s.pcs[t := EnqLoad(a)], pool := s.pool - {a}, data := s.data[a := v], next := s.next[a := 0],
                     place := s.place[a := Own(t)], trace := s.trace + [Call(t, PushOp(v))])
  {
    hide Goes, QReachable, Addr, Pack, Count;
    GoesNowhere(s, t);
    run, s' := [], s;
    run := More(s, run, s', n, Move(t, CallPush(v))); s' := QApply(s', Move(t, CallPush(v)));
    run := More(s, run, s', n, Move(t, Take(a))); s' := QApply(s', Move(t, Take(a)));
    run := More(s, run, s', n, Move(t, Go)); s' := EnqStep(s', t);
    run := More(s, run, s', n, Move(t, Go)); s' := EnqStep(s', t);
    assert s'.pcs == s.pcs[t := EnqLoad(a)];
  }

  lemma AppendFrom(s0: QState, run: seq<Move>, s: QState, n: nat, t: nat) returns (run': seq<Move>, s': QState)
    requires Goes(s0, run, s, t) && QReachable(s, n) && t < |s.pcs| && s.pcs[t].EnqLoad?
    ensures Goes(s0, run', s', t) && QReachable(s', n) && s'.pcs == s.pcs[t := QIdle]
    ensures var v := Read(s.data, s.pcs[t].node, 0);
            && s'.trace == s.trace + [Lin(t, Pushed(v)), Return(t, PushResult(true))]
            && Contents(s') == Contents(s) + [v] && s'.line == s.line + [s.pcs[t].node]
    ensures s'.tails == |s'.line| - 1 && s'.size == s.size + 1
  {
    hide Goes, QReachable, Addr, Pack, Count, Period;
    EndsSay(s, n);
    run', s' := HelpAlong(s0, run, s, n, t);
    run', s' := LinkBehind(s0, run', s', n, t);
    run', s' := EndEnqueue(s0, run', s', n, t);
    assert s'.pcs == s.pcs[t := QIdle];
  }
}
