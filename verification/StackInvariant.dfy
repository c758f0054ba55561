/** The inductive invariant of the stack machine, and that every windowed move
    keeps it. */
module StackInvariant {
  import opened Wrappers
  import opened Bits
  import opened StackMachine
  import opened StackTrace

  // The links from address a spell chain and end in null.
  predicate IsChain(next: map<nat, nat>, a: nat, chain: seq<nat>)
    decreases |chain|
  {
    if chain == [] then a == 0
    else a != 0 && a == chain[0] && a in next && IsChain(next, next[a], chain[1..])
  }

  predicate Distinct(chain: seq<nat>) {
    forall i, j :: 0 <= i < j < |chain| ==> chain[i] != chain[j]
  }

  // The node a thread has for itself alone.
  function Owned(pc: Pc): set<nat> {
    if pc.PushData? || pc.PushLoad? || pc.PushLink? || pc.PushCas? ||
       pc.PopCount? || pc.PopData? || pc.PopFree?
    then {pc.node} else {}
  }

  predicate Shape(s: State) {
    && 1 <= s.bits <= WORD_BITS
    && s.next.Keys == s.data.Keys
    && s.pool <= s.next.Keys
    && forall a <- s.next.Keys :: 0 < a < Pow2(s.bits)
  }

  predicate TopOk(s: State)
    requires Shape(s)
  {
    && s.top < Pow2(WORD_BITS)
    && IsChain(s.next, Addr(s.top, s.bits), s.chain)
    && Count(s.top, s.bits) == s.cas % Period(s.bits)
  }

  predicate InUse(s: State, n: nat) {
    n in s.chain || exists t :: 0 <= t < |s.pcs| && n in Owned(s.pcs[t])
  }

  /** Every node is in exactly one place: the pool, the chain (once), or one
      thread. */
  predicate Ownership(s: State) {
    && Distinct(s.chain)
    && (forall n <- s.chain :: n in s.next && n !in s.pool)
    && (forall t, n :: 0 <= t < |s.pcs| && n in Owned(s.pcs[t]) ==>
          n in s.next && n !in s.pool && n !in s.chain)
    && (forall t, u :: 0 <= t < u < |s.pcs| ==> Owned(s.pcs[t]) !! Owned(s.pcs[u]))
    && (forall n <- s.next.Keys :: n in s.pool || InUse(s, n))
  }

  // What a thread knows about the word it loaded from _top_.
  predicate SeenOk(s: State, seen: nat, at: nat)
    requires Shape(s)
  {
    && seen < Pow2(WORD_BITS)
    && at <= s.cas
    && Count(seen, s.bits) == at % Period(s.bits)
    && (at == s.cas ==> seen == s.top)
  }

  predicate Local(s: State, pc: Pc)
    requires Shape(s)
  {
    match pc
    case PushLink(n, seen, at) => SeenOk(s, seen, at)
    case PushCas(n, seen, at) =>
      SeenOk(s, seen, at) && Read(s.next, n, 0) == Addr(seen, s.bits)
    case PopNext(seen, at) => SeenOk(s, seen, at) && Addr(seen, s.bits) != 0
    case PopCas(seen, next, at) =>
      SeenOk(s, seen, at) && Addr(seen, s.bits) != 0 &&
      (at == s.cas ==> next == Read(s.next, Addr(seen, s.bits), 0))
    case _ => true
  }

  function Values(s: State): seq<Value> {
    seq(|s.chain|, i requires 0 <= i < |s.chain| => Read(s.data, s.chain[i], 0))
  }

  // How far the thread's operation has come, as the outside sees it.
  function StatusOf(pc: Pc, data: map<nat, Value>): Status {
    match pc
    case Idle => Quiet
    case PushAlloc(v) => Calling(PushOp(v))
    case PushData(v, _) => Calling(PushOp(v))
    case PushLoad(n) => Calling(PushOp(Read(data, n, 0)))
    case PushLink(n, _, _) => Calling(PushOp(Read(data, n, 0)))
    case PushCas(n, _, _) => Calling(PushOp(Read(data, n, 0)))
    case PushCount(v) => Done(Pushed(v))
    case PopLoad => Calling(PopOp)
    case PopNext(_, _) => Calling(PopOp)
    case PopCas(_, _, _) => Calling(PopOp)
    case PopCount(n) => Done(Popped(Read(data, n, 0)))
    case PopData(n) => Done(Popped(Read(data, n, 0)))
    case PopFree(_, out) => Done(Popped(out))
  }

  predicate Threads(s: State)
    requires Shape(s)
  {
    forall t :: 0 <= t < |s.pcs| ==>
      && Local(s, s.pcs[t])
      && Project(s.trace, t) == Some(StatusOf(s.pcs[t], s.data))
  }

  // What _size_ is ahead of the chain by, because of thread pc.
  function Lead(pc: Pc): int {
    if pc.PushCount? then -1 else if pc.PopCount? then 1 else 0
  }

  function Leads(pcs: seq<Pc>): int {
    if pcs == [] then 0 else Leads(pcs[..|pcs| - 1]) + Lead(pcs[|pcs| - 1])
  }

  predicate Inv(s: State) {
    && Shape(s) && TopOk(s) && Ownership(s) && Threads(s)
    && Replay(s.trace) == Some(Values(s))
    && (forall a <- s.trace :: a.t < |s.pcs|)
    && s.size == |s.chain| + Leads(s.pcs)
  }

  // ------------------------------------------------------------- lemmas

  lemma {:induction false} LeadsUpdate(pcs: seq<Pc>, t: nat, pc: Pc)
    requires t < |pcs|
    ensures Leads(pcs[t := pc]) == Leads(pcs) - Lead(pcs[t]) + Lead(pc)
  {
    var n := |pcs| - 1;
    if t == n {
      assert pcs[t := pc][..n] == pcs[..n];
    } else {
      LeadsUpdate(pcs[..n], t, pc);
      assert pcs[t := pc][..n] == pcs[..n][t := pc];
      assert pcs[..n][t] == pcs[t];
    }
  }

  lemma {:induction false} LeadsIdle(pcs: seq<Pc>)
    requires forall pc <- pcs :: Lead(pc) == 0
    ensures Leads(pcs) == 0
  {
    if pcs != [] {
      LeadsIdle(pcs[..|pcs| - 1]);
    }
  }

  lemma {:induction false} ChainFrame(next: map<nat, nat>, next': map<nat, nat>, a: nat, chain: seq<nat>)
    requires IsChain(next, a, chain)
    requires forall n <- chain :: n in next ==> n in next' && next'[n] == next[n]
    ensures IsChain(next', a, chain)
    decreases |chain|
  {
    if chain != [] {
      ChainFrame(next, next', next[a], chain[1..]);
    }
  }

  // The ABA argument: inside the window, a CAS that would succeed proves that
  // no CAS has succeeded since the load.
  lemma NoAba(s: State, seen: nat, at: nat)
    requires Shape(s) && TopOk(s) && SeenOk(s, seen, at)
    requires s.cas - at < Period(s.bits)
    ensures s.top == seen <==> at == s.cas
  {
    if s.top == seen {
      SameRemainder(at, s.cas, Period(s.bits));
    }
  }

  // A step of thread t that leaves alone what the others rely on.
  predicate Framed(s: State, s': State, t: nat, acts: seq<Action>) {
    && t < |s.pcs|
    && s'.bits == s.bits && s'.next.Keys == s.next.Keys && s'.data.Keys == s.next.Keys == s.data.Keys
    && |s'.pcs| == |s.pcs|
    && s'.pcs == s.pcs[t := s'.pcs[t]]
    && s'.trace == s.trace + acts
    && (forall a <- acts :: a.t == t)
    && (s'.cas > s.cas || (s'.cas == s.cas && s'.top == s.top && s'.chain == s.chain))
    && (forall n :: n in s.next && n in s.data && !(n in s.pool || n in Owned(s.pcs[t])) ==>
          s'.next[n] == s.next[n] && s'.data[n] == s.data[n])
  }

  lemma OwnNodesKept(s: State, s': State, t: nat, acts: seq<Action>, u: nat)
    requires Inv(s) && Framed(s, s', t, acts)
    requires u < |s.pcs| && u != t
    ensures forall n <- Owned(s.pcs[u]) ::
              n in s.next && n in s.data && s'.next[n] == s.next[n] && s'.data[n] == s.data[n]
  {
    hide Replay, Project, IsChain, Leads, Pow2, And, StatusOf, Local;
    assert Owned(s.pcs[t]) !! Owned(s.pcs[u]) by {
      assert t < u || u < t;
    }
  }

  lemma OthersLocal(s: State, s': State, t: nat, acts: seq<Action>, u: nat)
    requires Inv(s) && Framed(s, s', t, acts) && Shape(s')
    requires u < |s.pcs| && u != t
    ensures Local(s', s.pcs[u])
  {
    hide Ownership, TopOk, Replay, Project, IsChain, Leads, Pow2, And, Or, Addr, Count, Period, StatusOf;
    OwnNodesKept(s, s', t, acts, u);
    assert Local(s, s.pcs[u]);
    if s.pcs[u].PopCas? && s.pcs[u].at == s'.cas {
      NextKept(s, s', t, acts, u);
    }
  }

  lemma NextKept(s: State, s': State, t: nat, acts: seq<Action>, u: nat)
    requires Inv(s) && Framed(s, s', t, acts) && u < |s.pcs| && s.pcs[u].PopCas?
    requires s.pcs[u].at == s'.cas
    ensures var a := Addr(s.pcs[u].seen, s.bits); Read(s'.next, a, 0) == Read(s.next, a, 0)
  {
    hide Ownership, TopOk, Replay, Project, IsChain, Leads, Pow2, And, Or, Count, Period, StatusOf;
    assert Local(s, s.pcs[u]);
    TopNode(s);
    OwnedApart(s, t);
  }

  lemma OthersStatus(s: State, s': State, t: nat, acts: seq<Action>, u: nat)
    requires Inv(s) && Framed(s, s', t, acts)
    requires u < |s.pcs| && u != t
    ensures Project(s'.trace, u) == Some(StatusOf(s.pcs[u], s'.data))
  {
    hide Ownership, Replay, Project, IsChain, Leads, Pow2, And, Or, Local;
    OwnNodesKept(s, s', t, acts, u);
    OthersUnmoved(s.trace, acts, t, u);
    assert Project(s.trace, u) == Some(StatusOf(s.pcs[u], s.data));
  }

  // Whatever keeps the shape and the frame keeps the other threads; the step
  // itself has to answer for thread t, the chain and the ownership.
  lemma Keep(s: State, s': State, t: nat, acts: seq<Action>)
    requires Inv(s) && Framed(s, s', t, acts) && Shape(s') && TopOk(s') && Ownership(s')
    requires Local(s', s'.pcs[t])
    requires Project(s'.trace, t) == Some(StatusOf(s'.pcs[t], s'.data))
    requires Replay(s'.trace) == Some(Values(s'))
    requires s'.size - |s'.chain| - Lead(s'.pcs[t]) == s.size - |s.chain| - Lead(s.pcs[t])
    ensures Inv(s')
  {
    hide Replay, Project, IsChain, StatusOf, Local, Owned, Ownership, Pow2, And;
    forall u | 0 <= u < |s'.pcs|
      ensures Local(s', s'.pcs[u])
      ensures Project(s'.trace, u) == Some(StatusOf(s'.pcs[u], s'.data))
    {
      if u != t {
        OthersLocal(s, s', t, acts, u);
        OthersStatus(s, s', t, acts, u);
      }
    }
    LeadsUpdate(s.pcs, t, s'.pcs[t]);
  }

  // Memory that the chain does not use may change.
  lemma SameChain(s: State, s': State, t: nat, acts: seq<Action>)
    requires Inv(s) && Framed(s, s', t, acts) && Shape(s')
    requires s'.chain == s.chain && s'.cas == s.cas
    ensures TopOk(s') && Values(s') == Values(s)
  {
    hide Ownership, Values, Owned, Replay, Project, IsChain, StatusOf, Local, Leads, Pow2, And, Or, Addr, Count;
    ChainKept(s, s', t, acts);
    ChainFrame(s.next, s'.next, Addr(s.top, s.bits), s.chain);
  }

  // The nodes of the chain belong to no thread.
  lemma ChainKept(s: State, s': State, t: nat, acts: seq<Action>)
    requires Inv(s) && Framed(s, s', t, acts) && s'.chain == s.chain
    ensures forall n <- s.chain :: n in s.next && n in s'.next && s'.next[n] == s.next[n]
    ensures Values(s') == Values(s)
  {
    hide TopOk, InUse, Replay, Project, IsChain, StatusOf, Local, Leads, Pow2, And, Or;
    OwnedApart(s, t);
  }

  // Ownership after a step of thread t, by what the step moves.
  predicate OthersSame(s: State, s': State, t: nat) {
    t < |s.pcs| && |s'.pcs| == |s.pcs| && s'.next.Keys == s.next.Keys &&
    forall u :: 0 <= u < |s.pcs| && u != t ==> s'.pcs[u] == s.pcs[u]
  }

  lemma StillInUse(s: State, s': State, t: nat, n: nat)
    requires OthersSame(s, s', t) && InUse(s, n)
    requires n in s.chain ==> n in s'.chain
    requires n in Owned(s.pcs[t]) ==> n in Owned(s'.pcs[t])
    ensures InUse(s', n)
  {
    if n !in s.chain {
      var u :| 0 <= u < |s.pcs| && n in Owned(s.pcs[u]);
      assert n in Owned(s'.pcs[u]);
    }
  }

  lemma Unmoved(s: State, s': State, t: nat)
    requires Ownership(s) && OthersSame(s, s', t)
    requires s'.pool == s.pool && s'.chain == s.chain
    requires Owned(s'.pcs[t]) == Owned(s.pcs[t])
    ensures Ownership(s')
  {
    forall n | n in s'.next.Keys && n !in s'.pool ensures InUse(s', n) {
      StillInUse(s, s', t, n);
    }
  }

  lemma Taken(s: State, s': State, t: nat, n: nat)
    requires Ownership(s) && OthersSame(s, s', t) && s.pool <= s.next.Keys
    requires n in s.pool && s'.pool == s.pool - {n} && s'.chain == s.chain
    requires Owned(s.pcs[t]) == {} && Owned(s'.pcs[t]) == {n}
    ensures Ownership(s')
  {
    forall m | m in s'.next.Keys && m !in s'.pool ensures InUse(s', m) {
      if m == n {
        assert m in Owned(s'.pcs[t]);
      } else {
        StillInUse(s, s', t, m);
      }
    }
  }

  lemma Freed(s: State, s': State, t: nat, n: nat)
    requires Ownership(s) && OthersSame(s, s', t)
    requires s'.pool == s.pool + {n} && s'.chain == s.chain
    requires Owned(s.pcs[t]) == {n} && Owned(s'.pcs[t]) == {}
    ensures Ownership(s')
  {
    forall m | m in s'.next.Keys && m !in s'.pool ensures InUse(s', m) {
      StillInUse(s, s', t, m);
    }
    forall u, m | 0 <= u < |s'.pcs| && m in Owned(s'.pcs[u]) ensures m != n {
      assert t < u || u < t;
    }
  }

  lemma Linked(s: State, s': State, t: nat, n: nat)
    requires Ownership(s) && OthersSame(s, s', t)
    requires s'.pool == s.pool && s'.chain == [n] + s.chain
    requires Owned(s.pcs[t]) == {n} && Owned(s'.pcs[t]) == {}
    ensures Ownership(s')
  {
    forall m | m in s'.next.Keys && m !in s'.pool ensures InUse(s', m) {
      if m == n {
        assert s'.chain[0] == n;
      } else {
        StillInUse(s, s', t, m);
      }
    }
    forall u, m | 0 <= u < |s'.pcs| && m in Owned(s'.pcs[u]) ensures m != n {
      assert t < u || u < t;
    }
    forall i, j | 0 <= i < j < |s'.chain| ensures s'.chain[i] != s'.chain[j] {
      assert n in Owned(s.pcs[t]) && s'.chain[j] == s.chain[j - 1];
      assert s.chain[j - 1] in s.chain;
      if i > 0 {
        assert s'.chain[i] == s.chain[i - 1];
      }
    }
  }

  lemma Unlinked(s: State, s': State, t: nat)
    requires Ownership(s) && OthersSame(s, s', t) && s.chain != []
    requires s'.pool == s.pool && s'.chain == s.chain[1..]
    requires Owned(s.pcs[t]) == {} && Owned(s'.pcs[t]) == {s.chain[0]}
    ensures Ownership(s')
  {
    hide InUse, Owned;
    var n := s.chain[0];
    assert s.chain == [n] + s'.chain;
    forall m | m in s'.next.Keys && m !in s'.pool ensures InUse(s', m) {
      UnlinkedInUse(s, s', t, m);
    }
    assert forall i :: 0 <= i < |s'.chain| ==> s'.chain[i] == s.chain[i + 1];
    assert forall m <- s'.chain :: m in s.chain;
    forall u, m | 0 <= u < |s.pcs| && m in Owned(s'.pcs[u])
      ensures m in s.next && m !in s.pool && m !in s'.chain && (u == t <==> m == n)
    {
      UnlinkedOwned(s, s', t, u, m);
    }
    forall a, b | 0 <= a < b < |s'.pcs| ensures Owned(s'.pcs[a]) !! Owned(s'.pcs[b]) {
      UnlinkedApart(s, s', t, a, b);
    }
  }

  lemma UnlinkedApart(s: State, s': State, t: nat, a: nat, b: nat)
    requires Ownership(s) && OthersSame(s, s', t) && s.chain != [] && s.chain == [s.chain[0]] + s'.chain
    requires Owned(s'.pcs[t]) == {s.chain[0]} && a < b < |s.pcs|
    ensures Owned(s'.pcs[a]) !! Owned(s'.pcs[b])
  {
    hide InUse, Owned;
    if m :| m in Owned(s'.pcs[a]) && m in Owned(s'.pcs[b]) {
      UnlinkedOwned(s, s', t, a, m);
      UnlinkedOwned(s, s', t, b, m);
    }
  }

  lemma UnlinkedOwned(s: State, s': State, t: nat, u: nat, m: nat)
    requires Ownership(s) && OthersSame(s, s', t) && s.chain != [] && s.chain == [s.chain[0]] + s'.chain
    requires Owned(s'.pcs[t]) == {s.chain[0]} && u < |s.pcs| && m in Owned(s'.pcs[u])
    ensures m in s.next && m !in s.pool && m !in s'.chain && (u == t <==> m == s.chain[0])
  {
    hide InUse, Owned;
    assert s.chain[0] in s.chain && forall i :: 0 <= i < |s'.chain| ==> s'.chain[i] == s.chain[i + 1];
    assert u != t ==> m in Owned(s.pcs[u]);
  }

  lemma UnlinkedInUse(s: State, s': State, t: nat, m: nat)
    requires Ownership(s) && OthersSame(s, s', t) && s.chain != [] && m in s.next.Keys && m !in s.pool
    requires s.chain == [s.chain[0]] + s'.chain && Owned(s.pcs[t]) == {} && Owned(s'.pcs[t]) == {s.chain[0]}
    ensures InUse(s', m)
  {
    hide Owned;
    if m == s.chain[0] {
      assert m in Owned(s'.pcs[t]);
    } else {
      StillInUse(s, s', t, m);
    }
  }

  lemma OwnedApart(s: State, t: nat)
    requires Inv(s) && t < |s.pcs|
    ensures Shape(s)
    ensures forall n <- Owned(s.pcs[t]) :: n in s.next && n !in s.pool && n !in s.chain
  {
  }

  lemma TopNode(s: State)
    requires Inv(s) && Addr(s.top, s.bits) != 0
    ensures s.chain != [] && s.chain[0] == Addr(s.top, s.bits)
    ensures s.chain[0] in s.next && s.chain[0] in s.data && s.chain[0] !in s.pool
    ensures s.chain[0] in s.chain
  {
    assert s.chain[0] in s.chain;
  }

  // ------------------------------------------------------------- the moves

  // Moves that leave the nodes alone: the thread goes on, _size_ or the pool
  // may change.
  lemma KeepSilent(s: State, s': State, t: nat, acts: seq<Action>)
    requires Inv(s) && t < |s.pcs| && t < |s'.pcs|
    requires s' == s.(pcs := s.pcs[t := s'.pcs[t]], trace := s.trace + acts,
                      size := s'.size, fails := s'.fails, pool := s'.pool)
    requires s'.pool <= s.next.Keys && Ownership(s') && Local(s, s'.pcs[t])
    requires forall a <- acts :: a.t == t
    requires Project(s'.trace, t) == Some(StatusOf(s'.pcs[t], s.data))
    requires Replay(s'.trace) == Replay(s.trace)
    requires s'.size - Lead(s'.pcs[t]) == s.size - Lead(s.pcs[t])
    ensures Inv(s')
  {
    hide Ownership, Replay, Project, IsChain, StatusOf, Owned, Lead, Leads, Pow2, And, Or, Addr, Count, Period;
    assert Values(s') == Values(s);
    Keep(s, s', t, acts);
  }

  lemma Now(s: State, t: nat)
    requires Inv(s) && t < |s.pcs|
    ensures s.trace + [] == s.trace && Shape(s)
    ensures Local(s, s.pcs[t]) && Project(s.trace, t) == Some(StatusOf(s.pcs[t], s.data))
    ensures Shape(s) && SeenOk(s, s.top, s.cas) && Ownership(s)
  {
  }

  lemma KeepCall(s: State, m: Move)
    requires Inv(s) && Enabled(s, m) && (m.c.CallPush? || m.c.CallPop? || m.c.NoMemory?)
    ensures Inv(Apply(s, m))
  {
    hide Inv, SeenOk, Ownership, Replay, Project, Pow2, And, Or, Addr, Count;
    var s' := Apply(s, m);
    var a := s'.trace[|s.trace|];
    Now(s, m.t);
    Extend(s.trace, a, m.t);
    Unmoved(s, s', m.t);
    KeepSilent(s, s', m.t, [a]);
  }

  lemma KeepTake(s: State, m: Move)
    requires Inv(s) && Enabled(s, m) && m.c.Take?
    ensures Inv(Apply(s, m))
  {
    hide Ownership, TopOk, Replay, Project, Values, IsChain, Leads, Pow2, And, Or;
    var s' := Apply(s, m);
    assert s.trace + [] == s.trace;
    SameChain(s, s', m.t, []);
    Taken(s, s', m.t, m.c.n);
    Keep(s, s', m.t, []);
  }

  lemma KeepScribble(s: State, m: Move)
    requires Inv(s) && Enabled(s, m) && m.c.Scribble?
    ensures Inv(Apply(s, m))
  {
    hide Ownership, TopOk, Replay, Project, Values, IsChain, Leads, Pow2, And, Or;
    var s' := Apply(s, m);
    assert s.trace + [] == s.trace;
    SameChain(s, s', m.t, []);
    Unmoved(s, s', m.t);
    OwnedApart(s, m.t);
    if s.pcs[m.t].PopCas? && s.pcs[m.t].at == s.cas {
      TopNode(s);
    }
    Keep(s, s', m.t, []);
  }

  lemma KeepWrite(s: State, t: nat)
    requires Inv(s) && Enabled(s, Move(t, Go))
    requires s.pcs[t].PushData? || s.pcs[t].PushLink?
    ensures Inv(Access(s, t))
  {
    hide Ownership, TopOk, Replay, Project, Values, IsChain, Leads, Pow2, And, Or;
    var s' := Access(s, t);
    assert s.trace + [] == s.trace;
    OwnedApart(s, t);
    SameChain(s, s', t, []);
    Unmoved(s, s', t);
    Keep(s, s', t, []);
  }

  lemma KeepLoad(s: State, t: nat)
    requires Inv(s) && Enabled(s, Move(t, Go))
    requires s.pcs[t].PushLoad? || (s.pcs[t].PopLoad? && Addr(s.top, s.bits) != 0)
    ensures Inv(Access(s, t))
  {
    hide Inv, SeenOk, Ownership, Replay, Project, Pow2, And, Or, Addr, Count, Pack;
    Now(s, t);
    Unmoved(s, Access(s, t), t);
    KeepSilent(s, Access(s, t), t, []);
  }

  // Pop finds the stack empty: its effect and its return are one step.
  lemma KeepEmptyPop(s: State, t: nat)
    requires Inv(s) && Enabled(s, Move(t, Go))
    requires s.pcs[t].PopLoad? && Addr(s.top, s.bits) == 0
    ensures Inv(Access(s, t))
  {
    hide Inv, SeenOk, Ownership, Replay, Project, Pow2, And, Or, Addr, Count, Access;
    var acts := [Lin(t, FoundEmpty), Return(t, PopFalse)];
    EmptyChain(s);
    Now(s, t);
    ExtendEmptyPop(s.trace, t);
    var s' := At(s, t, Idle, acts);
    Unmoved(s, s', t);
    KeepSilent(s, s', t, acts);
    AfterEmptyPop(s, t);
  }

  lemma AfterEmptyPop(s: State, t: nat)
    requires Enabled(s, Move(t, Go)) && s.pcs[t].PopLoad? && Addr(s.top, s.bits) == 0
    ensures Access(s, t) == At(s, t, Idle, [Lin(t, FoundEmpty), Return(t, PopFalse)])
  {
  }

  lemma EmptyChain(s: State)
    requires Inv(s) && Addr(s.top, s.bits) == 0
    ensures Replay(s.trace) == Some([])
  {
    hide Project, Ownership, Pow2;
    assert Values(s) == [];
  }

  lemma KeepRead(s: State, t: nat)
    requires Inv(s) && Enabled(s, Move(t, Go))
    requires s.pcs[t].PopNext? || s.pcs[t].PopData? || s.pcs[t].PopCount?
    ensures Inv(Access(s, t))
  {
    hide Inv, SeenOk, Ownership, Replay, Project, Pow2, And, Or, Addr, Count, Pack;
    Now(s, t);
    Unmoved(s, Access(s, t), t);
    KeepSilent(s, Access(s, t), t, []);
  }

  lemma KeepPushReturn(s: State, t: nat)
    requires Inv(s) && Enabled(s, Move(t, Go)) && s.pcs[t].PushCount?
    ensures Inv(Access(s, t))
  {
    hide Inv, SeenOk, Ownership, Replay, Project, Pow2, And, Or, Addr, Count, Pack;
    var a := Return(t, PushResult(true));
    Now(s, t);
    Extend(s.trace, a, t);
    Unmoved(s, Access(s, t), t);
    KeepSilent(s, Access(s, t), t, [a]);
  }

  lemma KeepFree(s: State, t: nat)
    requires Inv(s) && Enabled(s, Move(t, Go)) && s.pcs[t].PopFree?
    ensures Inv(Access(s, t))
  {
    hide Inv, SeenOk, Ownership, Replay, Project, Pow2, And, Or, Addr, Count, Access;
    var a := Return(t, PopTrue(s.pcs[t].out));
    Now(s, t);
    OwnedApart(s, t);
    Extend(s.trace, a, t);
    var s' := At(s, t, Idle, [a]).(pool := s.pool + {s.pcs[t].node});
    Freed(s, s', t, s.pcs[t].node);
    KeepSilent(s, s', t, [a]);
    AfterFree(s, t);
  }

  lemma AfterFree(s: State, t: nat)
    requires Enabled(s, Move(t, Go)) && s.pcs[t].PopFree?
    ensures Access(s, t) ==
            At(s, t, Idle, [Return(t, PopTrue(s.pcs[t].out))]).(pool := s.pool + {s.pcs[t].node})
  {
  }

  lemma KeepFailedCas(s: State, t: nat)
    requires Inv(s) && Enabled(s, Move(t, Go))
    requires s.pcs[t].PushCas? || s.pcs[t].PopCas?
    requires s.top != s.pcs[t].seen
    ensures Inv(Access(s, t))
  {
    hide Inv, SeenOk, Ownership, Replay, Project, Pow2, And, Or, Addr, Count, Pack;
    Now(s, t);
    Unmoved(s, Access(s, t), t);
    KeepSilent(s, Access(s, t), t, []);
  }

  // The word a successful CAS stores.
  lemma NewTop(s: State, node: nat)
    requires Shape(s) && TopOk(s) && node < Pow2(s.bits)
    ensures var top := Pack(node, Count(s.top, s.bits) + 1, s.bits);
            && top < Pow2(WORD_BITS)
            && Addr(top, s.bits) == node
            && Count(top, s.bits) == (s.cas + 1) % Period(s.bits)
  {
    hide IsChain, Pow2, And, Or, Pack;
    Unpack(node, Count(s.top, s.bits) + 1, s.bits);
    NextTag(Count(s.top, s.bits), s.cas, Period(s.bits));
  }

  lemma KeepPush(s: State, t: nat)
    requires Inv(s) && Enabled(s, Move(t, Go)) && s.pcs[t].PushCas?
    requires s.top == s.pcs[t].seen && InWindow(s, t)
    ensures Inv(Access(s, t))
  {
    hide Ownership, Replay, Project, Leads, TopOk, IsChain, StatusOf, Values, Owned, Pow2, And, Or, Addr, Count, Pack;
    var s' := Access(s, t);
    PushSpells(s, t);
    PushTakesEffect(s, t);
    PushOwns(s, t);
    Linked(s, s', t, s.pcs[t].node);
    Keep(s, s', t, [Lin(t, Pushed(s.data[s.pcs[t].node]))]);
  }

  lemma PushOwns(s: State, t: nat)
    requires Inv(s) && t < |s.pcs| && s.pcs[t].PushCas?
    ensures Owned(s.pcs[t]) == {s.pcs[t].node} && Owned(PushCount(s.data[s.pcs[t].node])) == {}
    ensures forall v :: Owned(PushCount(v)) == {}
  {
  }

  // The new top and the links from it.
  lemma PushSpells(s: State, t: nat)
    requires Inv(s) && Enabled(s, Move(t, Go)) && s.pcs[t].PushCas?
    requires s.top == s.pcs[t].seen && InWindow(s, t)
    ensures Shape(Access(s, t)) && TopOk(Access(s, t)) && s.pcs[t].node in s.data
    ensures Access(s, t).trace == s.trace + [Lin(t, Pushed(s.data[s.pcs[t].node]))]
  {
    hide Ownership, Replay, Project, Leads, StatusOf, Values, Pow2, And, Or, Pack;
    var n := s.pcs[t].node;
    NoAba(s, s.pcs[t].seen, s.pcs[t].at);
    OwnedApart(s, t);
    assert n in Owned(s.pcs[t]);
    NewTop(s, n);
    assert Access(s, t).chain[1..] == s.chain;
  }

  lemma PushTakesEffect(s: State, t: nat)
    requires Inv(s) && Enabled(s, Move(t, Go)) && s.pcs[t].PushCas? && s.top == s.pcs[t].seen
    requires s.pcs[t].node in s.data
    ensures var s' := Access(s, t);
            && Project(s'.trace, t) == Some(StatusOf(s'.pcs[t], s'.data))
            && Replay(s'.trace) == Some(Values(s'))
  {
    hide Ownership, Replay, Project, Leads, TopOk, IsChain, Local, Values, Effect, Pow2, And, Or, Pack, Addr, Count;
    var v := s.data[s.pcs[t].node];
    assert Project(s.trace, t) == Some(StatusOf(s.pcs[t], s.data));
    Extend(s.trace, Lin(t, Pushed(v)), t);
    PushEffect(s, Access(s, t), v);
  }

  lemma PushEffect(s: State, s': State, v: Value)
    requires s'.data == s.data && s'.chain != [] && s'.chain[1..] == s.chain && v == Read(s.data, s'.chain[0], 0)
    ensures Effect(Values(s), Pushed(v)) == Some(Values(s'))
  {
    hide Values;
    ValuesCons(s, s');
  }

  // One node more at the head of the chain is one value more.
  lemma ValuesCons(s: State, s': State)
    requires s'.data == s.data && s'.chain != [] && s'.chain[1..] == s.chain
    ensures Values(s') == [Read(s.data, s'.chain[0], 0)] + Values(s)
  {
  }

  lemma KeepPop(s: State, t: nat)
    requires Inv(s) && Enabled(s, Move(t, Go)) && s.pcs[t].PopCas?
    requires s.top == s.pcs[t].seen && InWindow(s, t)
    ensures Inv(Access(s, t))
  {
    hide Ownership, Replay, Project, Leads, TopOk, IsChain, StatusOf, Values, Pow2, And, Or, Addr, Count, Pack;
    var s' := Access(s, t);
    PopSpells(s, t);
    PopTakesEffect(s, t);
    Unlinked(s, s', t);
    Keep(s, s', t, [Lin(t, Popped(s.data[s.chain[0]]))]);
  }

  lemma PopSpells(s: State, t: nat)
    requires Inv(s) && Enabled(s, Move(t, Go)) && s.pcs[t].PopCas?
    requires s.top == s.pcs[t].seen && InWindow(s, t)
    ensures Shape(Access(s, t)) && TopOk(Access(s, t))
    ensures s.chain != [] && s.chain[0] == Addr(s.top, s.bits) && s.chain[0] in s.data
    ensures Access(s, t).trace == s.trace + [Lin(t, Popped(s.data[s.chain[0]]))]
  {
    hide Ownership, Replay, Project, Leads, StatusOf, Values, Pow2, And, Or, Pack;
    NoAba(s, s.pcs[t].seen, s.pcs[t].at);
    TopNode(s);
    var next := s.pcs[t].next;
    assert IsChain(s.next, next, s.chain[1..]);
    NewTop(s, next);
  }

  lemma PopTakesEffect(s: State, t: nat)
    requires Inv(s) && Enabled(s, Move(t, Go)) && s.pcs[t].PopCas? && s.top == s.pcs[t].seen
    requires s.chain != [] && s.chain[0] == Addr(s.top, s.bits) && s.chain[0] in s.data
    ensures var s' := Access(s, t);
            && Project(s'.trace, t) == Some(StatusOf(s'.pcs[t], s'.data))
            && Replay(s'.trace) == Some(Values(s'))
  {
    hide Ownership, Replay, Project, Leads, TopOk, IsChain, Local, Values, Effect, Pow2, And, Or, Pack, Addr, Count;
    var v := s.data[s.chain[0]];
    assert Project(s.trace, t) == Some(StatusOf(s.pcs[t], s.data));
    Extend(s.trace, Lin(t, Popped(v)), t);
    PopEffect(s, Access(s, t), v);
  }

  lemma PopEffect(s: State, s': State, v: Value)
    requires s'.data == s.data && s.chain != [] && s'.chain == s.chain[1..] && v == Read(s.data, s.chain[0], 0)
    ensures Effect(Values(s), Popped(v)) == Some(Values(s'))
  {
    hide Values;
    ValuesCons(s', s);
    assert Values(s)[1..] == Values(s');
  }

  /** Every move made inside the window keeps the invariant. */
  lemma KeepMove(s: State, m: Move)
    requires Inv(s) && Enabled(s, m) && InWindow(s, m.t)
    ensures Inv(Apply(s, m)) && Apply(s, m).bits == s.bits && |Apply(s, m).pcs| == |s.pcs|
  {
    hide Inv, Pack, Addr, Count;
    match m.c {
      case Take(_) => KeepTake(s, m);
      case Scribble(_, _, _) => KeepScribble(s, m);
      case Go =>
        match s.pcs[m.t] {
          case PushData(_, _) => KeepWrite(s, m.t);
          case PushLink(_, _, _) => KeepWrite(s, m.t);
          case PushLoad(_) => KeepLoad(s, m.t);
          case PopLoad =>
            if Addr(s.top, s.bits) == 0 { KeepEmptyPop(s, m.t); } else { KeepLoad(s, m.t); }
          case PopNext(_, _) => KeepRead(s, m.t);
          case PopData(_) => KeepRead(s, m.t);
          case PopCount(_) => KeepRead(s, m.t);
          case PushCount(_) => KeepPushReturn(s, m.t);
          case PopFree(_, _) => KeepFree(s, m.t);
          case PushCas(_, seen, _) =>
            if s.top == seen { KeepPush(s, m.t); } else { KeepFailedCas(s, m.t); }
          case PopCas(seen, _, _) =>
            if s.top == seen { KeepPop(s, m.t); } else { KeepFailedCas(s, m.t); }
        }
      case _ => KeepCall(s, m);
    }
  }

  lemma InitialInv(s: State, n: nat)
    requires Initial(s, n)
    ensures Inv(s)
  {
    hide Pow2, Leads;
    assert Addr(0, s.bits) == 0;
    DivModUnique(0, Pow2(s.bits), 0, 0);
    DivModUnique(0, Period(s.bits), 0, 0);
    LeadsIdle(s.pcs);
    assert Values(s) == [];
  }

  /** The invariant holds in every reachable state: every number of threads,
      every interleaving, every recycling of nodes. */
  lemma {:induction false} KeepRun(s: State, run: seq<Move>)
    requires Inv(s) && IsWindowedRun(s, run)
    ensures IsRun(s, run) && Inv(Final(s, run)) && Final(s, run).bits == s.bits
    ensures |Final(s, run).pcs| == |s.pcs|
    decreases |run|
  {
    hide Inv;
    if run != [] {
      KeepMove(s, run[0]);
      KeepRun(Apply(s, run[0]), run[1..]);
    }
  }
}
