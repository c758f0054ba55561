/** The stack's own code, run by one thread while the others interfere.

    The fields are the object's; the ghost state _m_ is the whole system, of
    which they are the shared part. Between any two accesses of the code the
    other threads make any finite number of moves. */
module LockFreeStack {
  import opened Wrappers
  import opened Bits
  import opened StackMachine
  import opened StackTrace
  import opened StackInvariant

  // s' is reached from s by a windowed run.
  ghost predicate Reaches(s: State, s': State) {
    exists run: seq<Move> :: RunTo(s, run, s')
  }

  predicate RunTo(s: State, run: seq<Move>, s': State) {
    IsWindowedRun(s, run) && IsRun(s, run) && Final(s, run) == s'
  }

  // A run in which thread t does not move.
  predicate Without(run: seq<Move>, t: nat) {
    forall m <- run :: m.t != t
  }

  ghost predicate OthersReach(s: State, s': State, t: nat) {
    exists run: seq<Move> :: Without(run, t) && RunTo(s, run, s')
  }

  lemma {:induction false} RunConcat(s: State, r1: seq<Move>, r2: seq<Move>)
    requires IsWindowedRun(s, r1) && IsRun(s, r1) && IsWindowedRun(Final(s, r1), r2) && IsRun(Final(s, r1), r2)
    ensures IsWindowedRun(s, r1 + r2) && IsRun(s, r1 + r2)
    ensures Final(s, r1 + r2) == Final(Final(s, r1), r2)
    decreases |r1|
  {
    hide Apply, Enabled, InWindow;
    if r1 == [] {
      assert r1 + r2 == r2;
    } else {
      assert (r1 + r2)[1..] == r1[1..] + r2;
      RunConcat(Apply(s, r1[0]), r1[1..], r2);
    }
  }

  lemma ReachesTrans(s: State, s1: State, s2: State)
    requires Reaches(s, s1) && Reaches(s1, s2)
    ensures Reaches(s, s2)
  {
    hide Apply, Enabled, InWindow, IsRun, IsWindowedRun, Final;
    var r1 :| RunTo(s, r1, s1);
    var r2 :| RunTo(s1, r2, s2);
    RunConcat(s, r1, r2);
    assert RunTo(s, r1 + r2, s2);
  }

  lemma ReachesStep(s: State, m: Move)
    requires Enabled(s, m) && InWindow(s, m.t)
    ensures Reaches(s, Apply(s, m))
  {
    hide Apply, Enabled, InWindow;
    assert IsRun(Apply(s, m), [m][1..]) && IsWindowedRun(Apply(s, m), [m][1..]);
    assert Final(s, [m]) == Final(Apply(s, m), [m][1..]);
    assert RunTo(s, [m], Apply(s, m));
  }

  lemma ReachesSelf(s: State)
    ensures Reaches(s, s)
    ensures forall t: nat :: OthersReach(s, s, t)
  {
    assert RunTo(s, [], s);
    assert forall t :: Without([], t);
  }

  lemma OneOther(s: State, m: Move, t: nat)
    requires t < |s.pcs| && Enabled(s, m) && m.t != t
    ensures var s' := Apply(s, m);
            && |s'.pcs| == |s.pcs| && s'.pcs[t] == s.pcs[t] && s'.cas >= s.cas
            && Mine(s'.trace, t) == Mine(s.trace, t)
  {
    hide Apply, Mine;
    StepLocal(s, m, t);
    var acts := StepActs(s, m);
    OthersUnmoved(s.trace, acts, m.t, t);
  }

  lemma StepLocal(s: State, m: Move, t: nat)
    requires t < |s.pcs| && Enabled(s, m) && m.t != t
    ensures var s' := Apply(s, m);
            |s'.pcs| == |s.pcs| && s'.pcs[t] == s.pcs[t] && s'.cas >= s.cas
  {
    hide Access;
    if m.c.Go? {
      var _ := AccessEffect(s, m.t);
    }
  }

  lemma StepActs(s: State, m: Move) returns (acts: seq<Action>)
    requires Enabled(s, m)
    ensures Apply(s, m).trace == s.trace + acts && forall a <- acts :: a.t == m.t
  {
    hide Access;
    if m.c.Go? {
      acts := AccessEffect(s, m.t);
    } else {
      acts := Apply(s, m).trace[|s.trace|..];
    }
  }

  lemma AccessEffect(s: State, t: nat) returns (acts: seq<Action>)
    requires Enabled(s, Move(t, Go))
    ensures Access(s, t).pcs == s.pcs[t := Access(s, t).pcs[t]] && Access(s, t).cas >= s.cas
    ensures Access(s, t).trace == s.trace + acts && forall a <- acts :: a.t == t
  {
    hide Read, Pack, Addr, Bump, Count;
    acts := [];
    match s.pcs[t] {
      case PushCas(n, seen, _) =>
        if s.top == seen { acts := [Lin(t, Pushed(Read(s.data, n, 0)))]; }
      case PopCas(seen, _, _) =>
        if s.top == seen { acts := [Lin(t, Popped(Read(s.data, Addr(seen, s.bits), 0)))]; }
      case PushCount(_) => acts := [Return(t, PushResult(true))];
      case PopFree(_, out) => acts := [Return(t, PopTrue(out))];
      case PopLoad =>
        if Addr(s.top, s.bits) == 0 { acts := [Lin(t, FoundEmpty), Return(t, PopFalse)]; }
      case _ =>
    }
  }

  /** What a thread can rely on whatever the others do. */
  lemma {:induction false} OthersKeep(s: State, run: seq<Move>, t: nat)
    requires t < |s.pcs| && Without(run, t) && IsRun(s, run)
    ensures var s' := Final(s, run);
            && |s'.pcs| == |s.pcs| && s'.pcs[t] == s.pcs[t] && s'.cas >= s.cas
            && Mine(s'.trace, t) == Mine(s.trace, t)
    decreases |run|
  {
    hide Apply, Enabled, Mine;
    if run != [] {
      OneOther(s, run[0], t);
      assert Without(run[1..], t);
      OthersKeep(Apply(s, run[0]), run[1..], t);
    }
  }

  lemma Rely(s: State, s': State, t: nat)
    requires Inv(s) && t < |s.pcs| && OthersReach(s, s', t)
    ensures Inv(s') && s'.bits == s.bits && Reaches(s, s')
    ensures |s'.pcs| == |s.pcs| && s'.pcs[t] == s.pcs[t] && s'.cas >= s.cas
    ensures Mine(s'.trace, t) == Mine(s.trace, t)
  {
    hide Inv, IsRun, IsWindowedRun, Final, Mine;
    var run :| Without(run, t) && RunTo(s, run, s');
    KeepRun(s, run);
    OthersKeep(s, run, t);
  }

  /** Between its load and its CAS a thread is never overtaken by a whole
      period of CASes. */
  predicate Fresh(s: State, t: nat) {
    t < |s.pcs| && (s.pcs[t].PushLink? || s.pcs[t].PushCas? || s.pcs[t].PopNext? || s.pcs[t].PopCas?) ==>
      s.cas - s.pcs[t].at < Period(s.bits)
  }

  function After(s: State, t: nat, c: Choice): State {
    if Enabled(s, Move(t, c)) then Apply(s, Move(t, c)) else s
  }

  // The choice c takes thread t to pc and leaves more in the trace.
  predicate StepsTo(s: State, t: nat, c: Choice, pc: Pc, more: seq<Action>) {
    && Enabled(s, Move(t, c))
    && After(s, t, c).pcs == s.pcs[t := pc]
    && After(s, t, c).trace == s.trace + more
    && forall a <- more :: a.t == t
  }

  ghost predicate OnTheWayTo(start: State, s: State, t: nat, acts: seq<Action>) {
    Inv(s) && Reaches(start, s) && t < |s.pcs| && Mine(s.trace, t) == acts
  }

  lemma TakeStep(start: State, s: State, t: nat, c: Choice, pc: Pc, acts: seq<Action>, more: seq<Action>)
    requires OnTheWayTo(start, s, t, acts) && Fresh(s, t) && StepsTo(s, t, c, pc, more)
    ensures OnTheWayTo(start, After(s, t, c), t, acts + more) && After(s, t, c).pcs[t] == pc
  {
    assert InWindow(s, t);
    hide Inv, InWindow, Fresh, Reaches, Mine, Apply;
    KeepMove(s, Move(t, c));
    ReachesStep(s, Move(t, c));
    ReachesTrans(start, s, After(s, t, c));
    MineAll(s.trace, more, t);
  }

  // The value being pushed is still in the thread's node.
  lemma NodeHolds(s: State, t: nat, before: seq<Action>, v: Value)
    requires Inv(s) && t < |s.pcs| && Mine(s.trace, t) == before + [Call(t, PushOp(v))]
    requires s.pcs[t].PushLoad? || s.pcs[t].PushLink? || s.pcs[t].PushCas?
    ensures Read(s.data, s.pcs[t].node, 0) == v
  {
    hide Mine, Replay, Ownership, TopOk, Local;
    ProjectMine(s.trace, t);
    Extend(before, Call(t, PushOp(v)), t);
    assert Project(s.trace, t) == Some(StatusOf(s.pcs[t], s.data));
  }

  // The values a popper reports are those of its node.
  lemma NodeReports(s: State, t: nat, before: seq<Action>, v: Value)
    requires Inv(s) && t < |s.pcs| && Mine(s.trace, t) == before + [Lin(t, Popped(v))]
    requires s.pcs[t].PopCount? || s.pcs[t].PopData? || s.pcs[t].PopFree?
    ensures if s.pcs[t].PopFree? then s.pcs[t].out == v else Read(s.data, s.pcs[t].node, 0) == v
  {
    hide Mine, Replay, Ownership, TopOk, Local;
    ProjectMine(s.trace, t);
    Extend(before, Lin(t, Popped(v)), t);
    assert Project(s.trace, t) == Some(StatusOf(s.pcs[t], s.data));
  }

  // A CAS that fails has been overtaken.
  lemma Overtaken(s: State, t: nat)
    requires Inv(s) && t < |s.pcs| && (s.pcs[t].PushCas? || s.pcs[t].PopCas?)
    requires s.top != s.pcs[t].seen
    ensures s.pcs[t].at < s.cas
  {
    hide Project, Replay, Ownership, TopOk;
    assert Local(s, s.pcs[t]);
  }

  class LockFreeStack {
    const bits: nat
    var top: nat
    var size: int
    var next: map<nat, nat>
    var data: map<nat, Value>
    var pool: set<nat>
    ghost var m: State
    // How many CASes the other threads still make.
    ghost var budget: nat

    // The fields are the shared part of s.
    ghost predicate Shows(s: State)
      reads this
    {
      && s.bits == bits && top == s.top && size == s.size
      && next == s.next && data == s.data && pool == s.pool
    }

    ghost predicate Valid()
      reads this
    {
      Inv(m) && Shows(m)
    }

    constructor (bits: nat, nodes: set<nat>, ghost threads: nat, ghost budget: nat)
      requires 1 <= bits <= WORD_BITS && forall a <- nodes :: 0 < a < Pow2(bits)
      ensures Valid() && Initial(m, threads) && this.bits == bits && pool == nodes
      ensures this.budget == budget
    {
      this.bits := bits;
      top, size, pool := 0, 0, nodes;
      next := map a | a in nodes :: 0;
      data := map a | a in nodes :: 0;
      this.budget := budget;
      m := State(bits, 0, 0, map a | a in nodes :: 0, map a | a in nodes :: 0, nodes,
                 seq(threads, i => Idle), [], 0, seq(threads, i => 0), seq(threads, i => 0), []);
      new;
      InitialInv(m, threads);
    }

    /** The other threads move. The two assumptions of the code are here: the
        window, and that the others do not succeed for ever. */
    method Interfere(ghost t: nat)
      requires Valid() && t < |m.pcs| && Fresh(m, t)
      modifies this
      ensures Shows(m) && OthersReach(old(m), m, t) && Fresh(m, t)
      ensures m.cas + budget <= old(m.cas + budget)
    {
      ReachesSelf(m);
    }

    // Thread t, on the way from state start, stands at pc.
    ghost predicate OnTheWay(start: State, t: nat, pc: Pc, acts: seq<Action>)
      reads this
    {
      OnTheWayTo(start, m, t, acts) && Shows(m) && m.pcs[t] == pc
    }

    // Interfere as thread t sees it.
    method Elsewhere(ghost start: State, ghost t: nat, ghost pc: Pc, ghost acts: seq<Action>)
      requires OnTheWay(start, t, pc, acts) && Fresh(m, t)
      modifies this
      ensures OnTheWay(start, t, pc, acts) && Fresh(m, t)
      ensures m.cas >= old(m.cas) && m.cas + budget <= old(m.cas + budget)
    {
      hide Inv, Fresh, Reaches, OthersReach, Mine;
      Interfere(t);
      Rely(old(m), m, t);
      ReachesTrans(start, old(m), m);
    }

    // The system takes thread t's next step; the code has just made the same
    // change to the fields.
    ghost method Step(start: State, t: nat, c: Choice, pc: Pc, acts: seq<Action>, more: seq<Action>)
      requires OnTheWayTo(start, m, t, acts) && Fresh(m, t)
      requires StepsTo(m, t, c, pc, more) && Shows(After(m, t, c))
      modifies this`m
      ensures OnTheWay(start, t, pc, acts + more)
      ensures m == After(old(m), t, c)
    {
      hide Inv, Reaches, Mine, Pack, Addr, Count;
      TakeStep(start, m, t, c, pc, acts, more);
      m := After(m, t, c);
    }

    // node->data = data;
    method WriteData(ghost start: State, ghost t: nat, node: nat, v: Value, ghost acts: seq<Action>)
      requires OnTheWay(start, t, PushData(v, node), acts)
      modifies this
      ensures OnTheWay(start, t, PushLoad(node), acts)
    {
      hide Inv, Reaches, Mine, Pack, Addr, Count;
      Elsewhere(start, t, PushData(v, node), acts);
      data := data[node := v];
      Step(start, t, Go, PushLoad(node), acts, []);
      assert acts + [] == acts;
    }

    // old_top = _top; at a push that has its node ready.
    method LoadForPush(ghost start: State, ghost t: nat, node: nat, ghost acts: seq<Action>)
      returns (word: nat, ghost at: nat)
      requires OnTheWay(start, t, PushLoad(node), acts)
      modifies this
      ensures OnTheWay(start, t, PushLink(node, word, at), acts) && Fresh(m, t)
      ensures m.cas == at && budget <= old(budget)
    {
      hide Inv, Reaches, Mine, Pack, Addr, Count;
      Elsewhere(start, t, PushLoad(node), acts);
      word, at := top, m.cas;
      Step(start, t, Go, PushLink(node, word, at), acts, []);
      assert acts + [] == acts;
    }

    // node->next = old_top_addr;
    method WriteNext(ghost start: State, ghost t: nat, node: nat, word: nat, ghost at: nat, ghost acts: seq<Action>)
      requires OnTheWay(start, t, PushLink(node, word, at), acts) && Fresh(m, t)
      modifies this
      ensures OnTheWay(start, t, PushCas(node, word, at), acts) && Fresh(m, t)
      ensures m.cas + budget <= old(m.cas + budget)
    {
      hide Inv, Reaches, Mine, Pack, Addr, Count;
      Elsewhere(start, t, PushLink(node, word, at), acts);
      next := next[node := Addr(word, bits)];
      Step(start, t, Go, PushCas(node, word, at), acts, []);
      assert acts + [] == acts;
    }

    // InterlockedCompareExchangePointer(&_top, new_top, old_top) of a push.
    method CasPush(ghost start: State, ghost t: nat, node: nat, ghost v: Value, seen: nat, ghost at: nat,
                   newTop: nat, ghost before: seq<Action>)
      returns (won: bool)
      requires OnTheWay(start, t, PushCas(node, seen, at), before + [Call(t, PushOp(v))])
      requires Fresh(m, t) && newTop == Pack(node, Count(seen, bits) + 1, bits)
      modifies this
      ensures won ==> OnTheWay(start, t, PushCount(v), before + [Call(t, PushOp(v))] + [Lin(t, Pushed(v))])
      ensures !won ==> OnTheWay(start, t, PushLoad(node), before + [Call(t, PushOp(v))])
      ensures !won ==> at + budget < old(m.cas + budget)
    {
      hide Inv, Reaches, Mine, Pack, Addr, Count;
      ghost var acts := before + [Call(t, PushOp(v))];
      Elsewhere(start, t, PushCas(node, seen, at), acts);
      NodeHolds(m, t, before, v);
      won := top == seen;
      if won {
        top := newTop;
        Step(start, t, Go, PushCount(v), acts, [Lin(t, Pushed(v))]);
      } else {
        Overtaken(m, t);
        Step(start, t, Go, PushLoad(node), acts, []);
        assert acts + [] == acts;
      }
    }

    // InterlockedIncrement64(&_size); return true;
    method CountPush(ghost start: State, ghost t: nat, ghost v: Value, ghost acts: seq<Action>)
      requires OnTheWay(start, t, PushCount(v), acts)
      modifies this
      ensures OnTheWay(start, t, Idle, acts + [Return(t, PushResult(true))])
    {
      hide Inv, Reaches, Mine, Pack, Addr, Count;
      Elsewhere(start, t, PushCount(v), acts);
      size := size + 1;
      Step(start, t, Go, Idle, acts, [Return(t, PushResult(true))]);
    }

    // _pool->Alloc(), null when the pool has no node left.
    method Alloc(ghost start: State, ghost t: nat, ghost v: Value, ghost acts: seq<Action>)
      returns (node: Option<nat>)
      requires OnTheWay(start, t, PushAlloc(v), acts)
      modifies this
      ensures node.None? ==> OnTheWay(start, t, Idle, acts + [Return(t, PushResult(false))]) && pool == {}
      ensures node.Some? ==> OnTheWay(start, t, PushData(v, node.value), acts)
    {
      hide Inv, Reaches, Mine, Pack, Addr, Count;
      Elsewhere(start, t, PushAlloc(v), acts);
      if pool == {} {
        Step(start, t, NoMemory, Idle, acts, [Return(t, PushResult(false))]);
        return None;
      }
      var n :| n in pool;
      pool := pool - {n};
      Step(start, t, Take(n), PushData(v, n), acts, []);
      assert acts + [] == acts;
      return Some(n);
    }

    /** Push by thread t, whatever the others do meanwhile: it takes effect
        exactly once and then returns true, or the pool is empty and it has no
        effect and returns false. It retries only when another thread has
        succeeded. */
    method Push(ghost t: nat, v: Value) returns (ok: bool)
      requires Valid() && t < |m.pcs| && m.pcs[t].Idle?
      modifies this
      ensures Valid() && Reaches(old(m), m) && t < |m.pcs| && m.pcs[t].Idle?
      ensures !ok ==> pool == {}
      ensures Mine(m.trace, t) ==
              var called := old(Mine(m.trace, t)) + [Call(t, PushOp(v))];
              if ok then called + [Lin(t, Pushed(v))] + [Return(t, PushResult(true))]
              else called + [Return(t, PushResult(false))]
    {
      hide Inv, Shows, Reaches, Mine, Pack, Addr, Count, Fresh, Period;
      ghost var start, before := m, Mine(m.trace, t);
      ghost var acts := before + [Call(t, PushOp(v))];
      ReachesSelf(m);
      Invoke(start, t, CallPush(v), PushAlloc(v), before, Call(t, PushOp(v)));
      var alloc := Alloc(start, t, v, acts);
      if alloc.None? {
        return false;
      }
      var node := alloc.value;
      WriteData(start, t, node, v, acts);
      while true
        invariant OnTheWay(start, t, PushLoad(node), acts)
        decreases budget
      {
        var oldTop, at := LoadForPush(start, t, node, acts);
        var nextCnt := Count(oldTop, bits) + 1;
        WriteNext(start, t, node, oldTop, at, acts);
        var newTop := Pack(node, nextCnt, bits);
        var won := CasPush(start, t, node, v, oldTop, at, newTop, before);
        if won {
          CountPush(start, t, v, acts + [Lin(t, Pushed(v))]);
          return true;
        }
      }
      return false;
    }

    // The call itself: no access to memory.
    ghost method Invoke(start: State, t: nat, c: Choice, pc: Pc, before: seq<Action>, call: Action)
      requires Valid() && start == m && t < |m.pcs| && m.pcs[t].Idle? && before == Mine(m.trace, t)
      requires Reaches(m, m)
      requires (c.CallPush? && pc == PushAlloc(c.v) && call == Call(t, PushOp(c.v)))
            || (c.CallPop? && pc == PopLoad && call == Call(t, PopOp))
      modifies this`m
      ensures OnTheWay(start, t, pc, before + [call])
    {
      hide Inv, Reaches, Mine, Pack, Addr, Count;
      Step(start, t, c, pc, before, [call]);
    }

    // old_top = _top; at a pop, which ends here if the address is null.
    method LoadForPop(ghost start: State, ghost t: nat, ghost acts: seq<Action>)
      returns (word: nat, ghost at: nat)
      requires OnTheWay(start, t, PopLoad, acts)
      modifies this
      ensures Addr(word, bits) == 0 ==>
              OnTheWay(start, t, Idle, acts + [Lin(t, FoundEmpty), Return(t, PopFalse)])
      ensures Addr(word, bits) != 0 ==> OnTheWay(start, t, PopNext(word, at), acts) && Fresh(m, t)
      ensures m.cas == at && budget <= old(budget)
    {
      hide Inv, Reaches, Mine, Pack, Addr, Count;
      Elsewhere(start, t, PopLoad, acts);
      word, at := top, m.cas;
      if Addr(word, bits) == 0 {
        Step(start, t, Go, Idle, acts, [Lin(t, FoundEmpty), Return(t, PopFalse)]);
      } else {
        Step(start, t, Go, PopNext(word, at), acts, []);
        assert acts + [] == acts;
      }
    }

    // next = old_top_addr->next; the node may have been freed by now.
    method ReadNext(ghost start: State, ghost t: nat, word: nat, ghost at: nat, ghost acts: seq<Action>)
      returns (link: nat)
      requires OnTheWay(start, t, PopNext(word, at), acts) && Fresh(m, t)
      modifies this
      ensures OnTheWay(start, t, PopCas(word, link, at), acts) && Fresh(m, t)
      ensures m.cas + budget <= old(m.cas + budget)
    {
      hide Inv, Reaches, Mine, Pack, Addr, Count;
      Elsewhere(start, t, PopNext(word, at), acts);
      link := Read(next, Addr(word, bits), 0);
      Step(start, t, Go, PopCas(word, link, at), acts, []);
      assert acts + [] == acts;
    }

    // InterlockedCompareExchangePointer(&_top, new_top, old_top) of a pop; v is
    // the value at the top at that moment.
    method CasPop(ghost start: State, ghost t: nat, seen: nat, ghost link: nat, ghost at: nat,
                  newTop: nat, ghost acts: seq<Action>)
      returns (won: bool, ghost v: Value)
      requires OnTheWay(start, t, PopCas(seen, link, at), acts)
      requires Fresh(m, t) && newTop == Pack(link, Count(seen, bits) + 1, bits)
      modifies this
      ensures won ==> OnTheWay(start, t, PopCount(Addr(seen, bits)), acts + [Lin(t, Popped(v))])
      ensures !won ==> OnTheWay(start, t, PopLoad, acts)
      ensures !won ==> at + budget < old(m.cas + budget)
    {
      hide Inv, Reaches, Mine, Pack, Addr, Count;
      Elsewhere(start, t, PopCas(seen, link, at), acts);
      v := Read(m.data, Addr(seen, bits), 0);
      won := top == seen;
      if won {
        top := newTop;
        Step(start, t, Go, PopCount(Addr(seen, bits)), acts, [Lin(t, Popped(v))]);
      } else {
        Overtaken(m, t);
        Step(start, t, Go, PopLoad, acts, []);
        assert acts + [] == acts;
      }
    }

    // InterlockedDecrement64(&_size);
    method CountPop(ghost start: State, ghost t: nat, node: nat, ghost acts: seq<Action>)
      requires OnTheWay(start, t, PopCount(node), acts)
      modifies this
      ensures OnTheWay(start, t, PopData(node), acts)
    {
      hide Inv, Reaches, Mine, Pack, Addr, Count;
      Elsewhere(start, t, PopCount(node), acts);
      size := size - 1;
      Step(start, t, Go, PopData(node), acts, []);
      assert acts + [] == acts;
    }

    // *data = old_top_addr->data;
    method ReadData(ghost start: State, ghost t: nat, node: nat, ghost v: Value, ghost before: seq<Action>)
      returns (out: Value)
      requires OnTheWay(start, t, PopData(node), before + [Lin(t, Popped(v))])
      modifies this
      ensures OnTheWay(start, t, PopFree(node, out), before + [Lin(t, Popped(v))]) && out == v
    {
      hide Inv, Reaches, Mine, Pack, Addr, Count;
      ghost var acts := before + [Lin(t, Popped(v))];
      Elsewhere(start, t, PopData(node), acts);
      NodeReports(m, t, before, v);
      out := Read(data, node, 0);
      Step(start, t, Go, PopFree(node, out), acts, []);
      assert acts + [] == acts;
    }

    // _pool->Free(old_top_addr); return true;
    method Free(ghost start: State, ghost t: nat, node: nat, ghost out: Value, ghost acts: seq<Action>)
      requires OnTheWay(start, t, PopFree(node, out), acts)
      modifies this
      ensures OnTheWay(start, t, Idle, acts + [Return(t, PopTrue(out))])
    {
      hide Inv, Reaches, Mine, Pack, Addr, Count;
      Elsewhere(start, t, PopFree(node, out), acts);
      pool := pool + {node};
      Step(start, t, Go, Idle, acts, [Return(t, PopTrue(out))]);
    }

    /** Pop by thread t, whatever the others do meanwhile: what it returns is
        what it took off the stack, in one effect of its own, and it returns
        nothing only if the stack was empty at its load. */
    method Pop(ghost t: nat) returns (out: Option<Value>)
      requires Valid() && t < |m.pcs| && m.pcs[t].Idle?
      modifies this
      ensures Valid() && Reaches(old(m), m) && t < |m.pcs| && m.pcs[t].Idle?
      ensures Mine(m.trace, t) ==
              var called := old(Mine(m.trace, t)) + [Call(t, PopOp)];
              if out.Some? then called + [Lin(t, Popped(out.value))] + [Return(t, PopTrue(out.value))]
              else called + [Lin(t, FoundEmpty), Return(t, PopFalse)]
    {
      hide Inv, Shows, Reaches, Mine, Pack, Addr, Count, Fresh, Period;
      ghost var start, before := m, Mine(m.trace, t);
      ghost var acts := before + [Call(t, PopOp)];
      ReachesSelf(m);
      Invoke(start, t, CallPop, PopLoad, before, Call(t, PopOp));
      while true
        invariant OnTheWay(start, t, PopLoad, acts)
        decreases budget
      {
        var oldTop, at := LoadForPop(start, t, acts);
        var oldTopAddr := Addr(oldTop, bits);
        if oldTopAddr == 0 {
          return None;
        }
        var nextCnt := Count(oldTop, bits) + 1;
        var link := ReadNext(start, t, oldTop, at, acts);
        var newTop := Pack(link, nextCnt, bits);
        var won, v := CasPop(start, t, oldTop, link, at, newTop, acts);
        if won {
          CountPop(start, t, oldTopAddr, acts + [Lin(t, Popped(v))]);
          var value := ReadData(start, t, oldTopAddr, v, acts);
          Free(start, t, oldTopAddr, value, acts + [Lin(t, Popped(v))]);
          return Some(value);
        }
      }
      return None;
    }

    // _size_ as it stands: the length, but for pushes and pops not yet counted.
    method GetSize() returns (n: int)
      requires Valid()
      ensures n == size == |m.chain| + Leads(m.pcs)
    {
      n := size;
    }
  }
}
