/** The bound on the tag cannot be relaxed: with exactly one period of CASes
    between a load and its CAS the stack can go wrong, for every width of the
    tag from two bits on. */
module StackTightness {
  import opened Wrappers
  import opened Bits
  import opened StackMachine
  import opened StackTrace
  import opened StackInvariant
  import opened StackTheorems

  lemma {:induction false} RunSnoc(s: State, run: seq<Move>, m: Move)
    requires IsWindowedRun(s, run) && IsRun(s, run)
    requires Enabled(Final(s, run), m) && InWindow(Final(s, run), m.t)
    ensures IsWindowedRun(s, run + [m]) && IsRun(s, run + [m])
    ensures Final(s, run + [m]) == Apply(Final(s, run), m)
    decreases |run|
  {
    hide Apply, Enabled, InWindow;
    if run == [] {
      assert run + [m] == [m] && [m][1..] == [];
    } else {
      assert (run + [m])[1..] == run[1..] + [m];
      RunSnoc(Apply(s, run[0]), run[1..], m);
    }
  }

  lemma OneMove(s: State, m: Move)
    requires Reachable(s, 2) && Enabled(s, m) && InWindow(s, m.t)
    ensures Reachable(Apply(s, m), 2)
  {
    hide Apply, Enabled, InWindow, IsRun, IsWindowedRun, Final, Initial;
    var s0: State, run: seq<Move> :|
      Initial(s0, 2) && IsWindowedRun(s0, run) && IsRun(s0, run) && Final(s0, run) == s;
    RunSnoc(s0, run, m);
  }

  // What the invariant says of the top of the stack.
  lemma TopOfChain(s: State)
    requires Reachable(s, 2)
    ensures |s.pcs| == 2
    ensures Addr(s.top, s.bits) == if s.chain == [] then 0 else s.chain[0]
    ensures s.chain != [] ==> s.chain[0] != 0
    ensures |s.chain| > 1 ==> Read(s.next, s.chain[0], 0) == s.chain[1]
    ensures Replay(s.trace) == Some(Values(s))
    ensures forall n <- s.pool :: n in s.next
  {
    ReachableInv(s, 2);
    hide Replay, Project, Pow2, And;
    if |s.chain| > 1 {
      assert IsChain(s.next, s.next[s.chain[0]], s.chain[1..]);
    }
  }

  // What a whole operation of a thread with no one in between leaves as it was.
  predicate Quiet(s: State, s': State) {
    s'.bits == s.bits && s'.pcs == s.pcs && s'.cas == s.cas + 1
  }

  lemma PushAll(s: State, t: nat, n: nat, v: Value) returns (s': State)
    requires Reachable(s, 2) && t < |s.pcs| && s.pcs[t].Idle? && n in s.pool
    ensures Reachable(s', 2) && Quiet(s, s')
    ensures s'.chain == [n] + s.chain && s'.pool == s.pool - {n} && s'.data == s.data[n := v]
  {
    hide Reachable, Pack, Addr, Count, Bump;
    OneMove(s, Move(t, CallPush(v))); s' := Apply(s, Move(t, CallPush(v)));
    OneMove(s', Move(t, Take(n))); s' := Apply(s', Move(t, Take(n)));
    s' := Five(s', t, n, v);
    assert s'.pcs == s.pcs;
  }

  // The five accesses of a push that has its node.
  lemma Five(s: State, t: nat, n: nat, v: Value) returns (s': State)
    requires Reachable(s, 2) && t < |s.pcs| && s.pcs[t] == PushData(v, n)
    ensures Reachable(s', 2) && Quiet(s.(pcs := s.pcs[t := Idle]), s')
    ensures s'.chain == [n] + s.chain && s'.pool == s.pool && s'.data == s.data[n := v]
  {
    hide Reachable, Pack, Addr, Count, Bump;
    var go := Move(t, Go);
    OneMove(s, go); s' := Access(s, t);
    OneMove(s', go); s' := Access(s', t);
    OneMove(s', go); s' := Access(s', t);
    OneMove(s', go); s' := Access(s', t);
    OneMove(s', go); s' := Access(s', t);
  }

  lemma PopAll(s: State, t: nat) returns (s': State)
    requires Reachable(s, 2) && t < |s.pcs| && s.pcs[t].Idle? && s.chain != []
    ensures Reachable(s', 2) && Quiet(s, s')
    ensures s'.chain == s.chain[1..] && s'.pool == s.pool + {s.chain[0]} && s'.data == s.data
  {
    hide Reachable, Pack, Addr, Count, Bump;
    s' := LoadTop(s, t);
    s' := FourMore(s', t, s.chain[0]);
    assert s'.pcs == s.pcs;
  }

  // The call of a pop and its two reads.
  lemma LoadTop(s: State, t: nat) returns (s': State)
    requires Reachable(s, 2) && t < |s.pcs| && s.pcs[t].Idle? && s.chain != []
    ensures Reachable(s', 2) && s'.bits == s.bits && s'.cas == s.cas && s'.top == s.top
    ensures s'.chain == s.chain && s'.pool == s.pool && s'.data == s.data
    ensures Addr(s.top, s.bits) == s.chain[0]
    ensures s'.pcs == s.pcs[t := PopCas(s.top, Read(s.next, s.chain[0], 0), s.cas)]
  {
    hide Reachable, Pack, Addr, Count, Bump, Values, Replay, IsChain;
    TopOfChain(s);
    OneMove(s, Move(t, CallPop)); s' := Apply(s, Move(t, CallPop));
    OneMove(s', Move(t, Go)); s' := Access(s', t);
    OneMove(s', Move(t, Go)); s' := Access(s', t);
    assert s'.pcs == s.pcs[t := s'.pcs[t]];
  }

  // The four accesses of a pop whose CAS succeeds.
  lemma FourMore(s: State, t: nat, n: nat) returns (s': State)
    requires Reachable(s, 2) && t < |s.pcs| && s.pcs[t].PopCas? && s.chain != []
    requires s.pcs[t].seen == s.top && s.pcs[t].at == s.cas && n == Addr(s.top, s.bits)
    ensures Reachable(s', 2) && Quiet(s.(pcs := s.pcs[t := Idle]), s')
    ensures s'.chain == s.chain[1..] && s'.pool == s.pool + {n} && s'.data == s.data
  {
    hide Reachable, Pack, Addr, Count, Bump;
    OneMove(s, Move(t, Go)); s' := Access(s, t);
    OneMove(s', Move(t, Go)); s' := Access(s', t);
    OneMove(s', Move(t, Go)); s' := Access(s', t);
    OneMove(s', Move(t, Go)); s' := Access(s', t);
  }

  // Thread 0 is about to unlink node 2, believing that node 1 comes next.
  predicate Misled(s: State, at: nat) {
    && |s.pcs| == 2 && s.pcs[1].Idle? && s.pcs[0].PopCas?
    && Addr(s.pcs[0].seen, s.bits) == 2 && s.pcs[0].next == 1 && s.pcs[0].at == at
  }

  lemma Three(bits: nat) returns (s: State)
    requires 2 <= bits <= WORD_BITS
    ensures Reachable(s, 2) && s.bits == bits && s.pcs == [Idle, Idle] && s.pool == {1, 2, 3}
    ensures s.chain == [] && s.cas == 0
  {
    var idle, zeros := seq(2, i => Idle), seq(2, i => 0);
    var none := map[1 := 0, 2 := 0, 3 := 0];
    s := State(bits, 0, 0, none, none, {1, 2, 3}, idle, [], 0, zeros, zeros, []);
    assert Pow2(bits) >= 4 by { assert Pow2(bits) == 2 * (2 * Pow2(bits - 2)); }
    hide Pow2;
    assert Initial(s, 2) && IsWindowedRun(s, []) && IsRun(s, []) && Final(s, []) == s;
    assert idle == [Idle, Idle];
  }

  lemma Mislead(bits: nat) returns (s: State)
    requires 2 <= bits <= WORD_BITS
    ensures Reachable(s, 2) && s.bits == bits && Misled(s, 2)
    ensures s.cas == 2 && s.chain == [2, 1] && s.pool == {3} && Read(s.data, 1, 0) == 1
  {
    hide Reachable, Pack, Addr, Count, Bump, Values, Replay;
    s := Three(bits);
    s := PushAll(s, 0, 1, 1);
    s := PushAll(s, 0, 2, 2);
    TopOfChain(s);
    s := LoadTop(s, 0);
  }

  // Thread 1 takes both nodes, and puts node 2 back on top of node 3.
  lemma Replace(s: State) returns (s': State)
    requires Reachable(s, 2) && Misled(s, 2)
    requires s.cas == 2 && s.chain == [2, 1] && s.pool == {3} && Read(s.data, 1, 0) == 1
    ensures Reachable(s', 2) && s'.bits == s.bits && Misled(s', 2)
    ensures s'.cas == 6 && Swapped(s')
  {
    hide Reachable, Addr;
    s' := PopAll(s, 1);
    s' := PopAll(s', 1);
    s' := PushAll(s', 1, 3, 3);
    s' := PushAll(s', 1, 2, 4);
  }

  predicate Swapped(s: State) {
    s.chain == [2, 3] && s.pool == {1} && Read(s.data, 1, 0) == 1 && Read(s.data, 3, 0) == 3
  }

  // It pushes and pops node 1 as often as one likes.
  lemma {:induction false} Pump(s: State, k: nat) returns (s': State)
    requires Reachable(s, 2) && Misled(s, 2) && Swapped(s)
    ensures Reachable(s', 2) && s'.bits == s.bits && Misled(s', 2) && Swapped(s')
    ensures s'.cas == s.cas + 2 * k
    decreases k
  {
    hide Reachable, Addr;
    s' := s;
    if k > 0 {
      s' := PushAll(s', 1, 1, 1);
      s' := PopAll(s', 1);
      s' := Pump(s', k - 1);
    }
  }

  lemma Halves(bits: nat) returns (k: nat)
    requires 2 <= bits <= WORD_BITS - 2
    ensures Period(bits) == 4 + 2 * k
  {
    var w := WORD_BITS - bits;
    assert Pow2(w) == 2 * Pow2(w - 1);
    assert Pow2(w - 1) == 2 * Pow2(w - 2);
    k := 2 * Pow2(w - 2) - 2;
  }

  // A period later thread 0 still finds the word it loaded.
  lemma OnePeriodLater(bits: nat) returns (s: State)
    requires 2 <= bits <= WORD_BITS - 2
    ensures Reachable(s, 2) && s.bits == bits && Misled(s, 2) && Swapped(s)
    ensures s.cas == 2 + Period(bits) && s.top == s.pcs[0].seen
  {
    var k := Halves(bits);
    hide *;
    s := Mislead(bits);
    s := Replace(s);
    s := Pump(s, k);
    SameWord(s);
  }

  // The address is back, and so is the counter.
  lemma SameWord(s: State)
    requires Reachable(s, 2) && Misled(s, 2) && Swapped(s) && s.cas == 2 + Period(s.bits) && Period(s.bits) > 2
    ensures s.top == s.pcs[0].seen
  {
    hide Reachable, Addr, Period, Count, Values, Replay;
    TopOfChain(s);
    WhenCasSucceeds(s, 2, 0);
    DivModUnique(2 + Period(s.bits), Period(s.bits), 1, 2);
  }

  // The moves of thread 1 from its call of Pop to its CAS.
  const THEFT: seq<Move> := [Move(1, CallPop), Move(1, Go), Move(1, Go), Move(1, Go)]

  lemma FinalCons(s: State, m: Move, rest: seq<Move>)
    requires Enabled(s, m) && IsRun(Apply(s, m), rest)
    ensures IsRun(s, [m] + rest) && Final(s, [m] + rest) == Final(Apply(s, m), rest)
  {
    hide Apply, Enabled;
    assert ([m] + rest)[1..] == rest;
  }

  lemma FinalFour(s: State, a: Move, b: Move, c: Move, d: Move)
    requires Enabled(s, a) && Enabled(Apply(s, a), b) && Enabled(Apply(Apply(s, a), b), c)
    requires Enabled(Apply(Apply(Apply(s, a), b), c), d)
    ensures IsRun(s, [a, b, c, d])
    ensures Final(s, [a, b, c, d]) == Apply(Apply(Apply(Apply(s, a), b), c), d)
  {
    hide Apply, Enabled;
    var s1, s2, s3 := Apply(s, a), Apply(Apply(s, a), b), Apply(Apply(Apply(s, a), b), c);
    FinalCons(s3, d, []);
    FinalCons(s2, c, [d]);
    FinalCons(s1, b, [c, d]);
    FinalCons(s, a, [b, c, d]);
    assert [a] + [b, c, d] == [a, b, c, d] && [b] + [c, d] == [b, c, d] && [c] + [d] == [c, d] && [d] + [] == [d];
  }

  // A pop of thread 1 that finds the free node 1 on top.
  lemma Steal(s: State)
    requires |s.pcs| == 2 && s.pcs[1].Idle? && Addr(s.top, s.bits) == 1 && Read(s.data, 1, 0) == 1
    requires Replay(s.trace) == Some([3])
    ensures IsRun(s, THEFT) && Replay(Final(s, THEFT).trace) == None
  {
    hide Replay, Addr, Pack, Count, Bump;
    var go := Move(1, Go);
    var s1 := Apply(s, Move(1, CallPop));
    var s2 := Apply(s1, go);
    var s3 := Apply(s2, go);
    var s4 := Apply(s3, go);
    FinalFour(s, Move(1, CallPop), go, go, go);
    assert s4.trace == s.trace + [Call(1, PopOp)] + [Lin(1, Popped(1))];
    Illegal(s.trace);
  }

  lemma Illegal(trace: seq<Action>)
    requires Replay(trace) == Some([3])
    ensures Replay(trace + [Call(1, PopOp)] + [Lin(1, Popped(1))]) == None
  {
    var called := trace + [Call(1, PopOp)];
    assert called[..|called| - 1] == trace;
    var popped := called + [Lin(1, Popped(1))];
    assert popped[..|popped| - 1] == called;
  }

  // The word that thread 0's CAS puts there names node 1.
  lemma WrongTop(s: State)
    requires 2 <= s.bits <= WORD_BITS
    ensures Addr(Pack(1, Count(s.top, s.bits) + 1, s.bits), s.bits) == 1
  {
    assert Pow2(s.bits) == 2 * Pow2(s.bits - 1);
    hide Pack, Addr, Count, Pow2;
    Unpack(1, Count(s.top, s.bits) + 1, s.bits);
  }

  // The CAS of thread 0 one period late: it succeeds, and puts a free node on top.
  lemma WrongCas(s: State)
    requires Reachable(s, 2) && Misled(s, 2) && Swapped(s) && s.top == s.pcs[0].seen
    requires 2 <= s.bits <= WORD_BITS
    ensures var s' := Access(s, 0);
            && |s'.pcs| == 2 && s'.pcs[1].Idle? && s'.bits == s.bits && Addr(s'.top, s.bits) == 1
            && s'.pool == {1} && Read(s'.data, 1, 0) == 1
            && Replay(s'.trace) == Some([3])
  {
    hide Reachable, Replay, Bump, Pack, Addr, Count, Pow2, IsChain;
    TopOfChain(s);
    WrongTop(s);
    assert Values(s) == [Read(s.data, 2, 0), 3];
    LegalPop(s.trace, Read(s.data, 2, 0));
  }

  lemma LegalPop(trace: seq<Action>, v: Value)
    requires Replay(trace) == Some([v, 3])
    ensures Replay(trace + [Lin(0, Popped(v))]) == Some([3])
  {
    var popped := trace + [Lin(0, Popped(v))];
    assert popped[..|popped| - 1] == trace;
  }

  /** The window is tight. For every tag of two bits or more there is a state, reached
      inside the window, in which a CAS exactly one period after its load
      succeeds; it leaves a node on top that is also in the pool, and after the
      next pop the history is not linearizable. */
  lemma PeriodIsTight(bits: nat) returns (s: State)
    requires 2 <= bits <= WORD_BITS - 2
    ensures Reachable(s, 2) && s.bits == bits
    ensures Enabled(s, Move(0, Go)) && s.pcs[0].PopCas? && s.cas - s.pcs[0].at == Period(bits)
    ensures var s' := Access(s, 0);
            && Addr(s'.top, bits) in s'.pool
            && IsRun(s', THEFT) && !Linearizable(Final(s', THEFT).trace, 2)
  {
    hide Reachable, Addr, Replay;
    s := OnePeriodLater(bits);
    WrongCas(s);
    hide Access, Final;
    Steal(Access(s, 0));
  }
}
